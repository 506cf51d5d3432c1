/**
 Reachability over a program image (src/i960/reach.cpp, src/m68k/reach.cpp): what it
 means for a result to be exactly what control can reach from the seeds, and the
 steps of the worklist that keep it on the way there. The two worklists themselves
 are in I960Reach and M68kReach.
 */
module Reach {
  /** An instruction as control flow sees it: where it can go, and what is noted about it. */
  datatype Insn<A> = Insn(next: A, targets: seq<A>, indirect: bool, ends: bool, undefined: bool)

  datatype Site<A> = Unmapped | Stop | Code(insn: Insn<A>)

  /** An image: what is at each address, and what a target becomes when it is taken up. */
  datatype Image<!A> = Image(at: A -> Site<A>, Align: A -> A)

  datatype Result<A(==)> = Result(insns: map<A, Insn<A>>, indirect: set<A>, stops: set<A>, unmapped: set<A>) {
    ghost function All(): set<A> { insns.Keys + stops + unmapped }
  }

  // ---- What is reachable ------------------------------------------------------

  /** Control can go from a to b: falling through, or to a direct target. */
  ghost predicate Goes<A(!new)>(p: Image<A>, a: A, b: A) {
    && p.at(a).Code?
    && (|| (!p.at(a).insn.ends && b == p.at(a).insn.next)
        || (exists t :: t in p.at(a).insn.targets && b == p.Align(t)))
  }

  ghost predicate IsPath<A(!new)>(p: Image<A>, seeds: seq<A>, path: seq<A>) {
    && |path| > 0
    && (exists s :: s in seeds && path[0] == p.Align(s))
    && (forall k :: 0 < k < |path| ==> Goes(p, path[k - 1], path[k]))
  }

  ghost predicate Reachable<A(!new)>(p: Image<A>, seeds: seq<A>, a: A) {
    exists path :: IsPath(p, seeds, path) && path[|path| - 1] == a
  }

  /** Everything an instruction goes to is in the set. */
  ghost predicate Inside<A(!new)>(p: Image<A>, insn: Insn<A>, s: set<A>) {
    && (!insn.ends ==> insn.next in s)
    && (forall t :: t in insn.targets ==> p.Align(t) in s)
  }

  ghost predicate Closed<A(!new)>(p: Image<A>, s: set<A>) {
    forall a :: a in s && p.at(a).Code? ==> Inside(p, p.at(a).insn, s)
  }

  ghost predicate Seeded<A(!new)>(p: Image<A>, seeds: seq<A>, s: set<A>) {
    forall a :: a in seeds ==> p.Align(a) in s
  }

  /** The result notes every instruction, stop, unmapped address and indirect site, and nothing else. */
  ghost predicate Exact<A(!new)>(p: Image<A>, seeds: seq<A>, r: Result<A>) {
    && (forall a :: a in r.insns <==> Reachable(p, seeds, a) && p.at(a).Code?)
    && (forall a :: a in r.insns ==> r.insns[a] == p.at(a).insn)
    && (forall a :: a in r.indirect <==> Reachable(p, seeds, a) && p.at(a).Code? && p.at(a).insn.indirect)
    && (forall a :: a in r.stops <==> Reachable(p, seeds, a) && (p.at(a).Stop? || (p.at(a).Code? && p.at(a).insn.undefined)))
    && (forall a :: a in r.unmapped <==> Reachable(p, seeds, a) && p.at(a).Unmapped?)
  }

  // ---- On the way there -------------------------------------------------------

  ghost predicate Kinds<A(!new)>(p: Image<A>, r: Result<A>) {
    && (forall a :: a in r.insns ==> p.at(a).Code? && r.insns[a] == p.at(a).insn)
    && (forall a :: a in r.indirect <==> a in r.insns && p.at(a).insn.indirect)
    && (forall a :: a in r.stops ==> p.at(a).Stop? || (a in r.insns && p.at(a).insn.undefined))
    && (forall a :: a in r.insns && p.at(a).insn.undefined ==> a in r.stops)
    && (forall a :: a in r.unmapped ==> p.at(a).Unmapped?)
  }

  /** What the instructions found lead to has been found, or is still to do. */
  ghost predicate Followed<A(!new)>(p: Image<A>, r: Result<A>, todo: set<A>) {
    forall a :: a in r.insns ==> Inside(p, r.insns[a], r.All() + todo)
  }

  /** Nothing has been found that is not reachable, and nothing else is to do. */
  ghost predicate Only<A(!new)>(p: Image<A>, seeds: seq<A>, s: set<A>) {
    forall a :: a in s ==> Reachable(p, seeds, a)
  }

  ghost predicate Progress<A(!new)>(p: Image<A>, seeds: seq<A>, r: Result<A>, todo: set<A>) {
    && Kinds(p, r) && Followed(p, r, todo)
    && Seeded(p, seeds, r.All() + todo) && Only(p, seeds, r.All() + todo)
  }

  /** The addresses on the worklist, as they will be taken up. */
  ghost function Todo<A(!new)>(p: Image<A>, work: seq<A>): set<A> {
    set t | t in work :: p.Align(t)
  }

  lemma Started<A(!new)>(p: Image<A>, seeds: seq<A>)
    ensures Progress(p, seeds, Result(map[], {}, {}, {}), Todo(p, seeds))
  {
    forall a | a in Todo(p, seeds) ensures Reachable(p, seeds, a) {
      assert IsPath(p, seeds, [a]);
      assert [a][|[a]| - 1] == a;
    }
  }

  /** One step further along a path. */
  lemma Onward<A(!new)>(p: Image<A>, seeds: seq<A>, a: A, b: A)
    requires Reachable(p, seeds, a) && Goes(p, a, b)
    ensures Reachable(p, seeds, b)
  {
    var path :| IsPath(p, seeds, path) && path[|path| - 1] == a;
    var longer := path + [b];
    assert longer[0] == path[0];
    forall k | 0 < k < |longer| ensures Goes(p, longer[k - 1], longer[k]) {
      if k < |path| { assert Goes(p, path[k - 1], path[k]); }
    }
    assert IsPath(p, seeds, longer) && longer[|longer| - 1] == b;
  }

  lemma StaysReachable<A(!new)>(p: Image<A>, seeds: seq<A>, a: A)
    requires Reachable(p, seeds, a) && p.at(a).Code?
    ensures var insn := p.at(a).insn;
            && (!insn.ends ==> Reachable(p, seeds, insn.next))
            && (forall t :: t in insn.targets ==> Reachable(p, seeds, p.Align(t)))
  {
    var insn := p.at(a).insn;
    if !insn.ends { Onward(p, seeds, a, insn.next); }
    forall t | t in insn.targets ensures Reachable(p, seeds, p.Align(t)) {
      Onward(p, seeds, a, p.Align(t));
    }
  }

  lemma SameProgress<A(!new)>(p: Image<A>, seeds: seq<A>, r: Result<A>, s: Result<A>, todo: set<A>, left: set<A>)
    requires Progress(p, seeds, r, todo) && r == s && todo == left
    ensures Progress(p, seeds, s, left)
  {
  }

  /** An address found before needs no more work. */
  lemma FoundBefore<A(!new)>(p: Image<A>, seeds: seq<A>, r: Result<A>, todo: set<A>, pc: A)
    requires Progress(p, seeds, r, todo + {pc}) && pc in r.All()
    ensures Progress(p, seeds, r, todo)
  {
    assert r.All() + (todo + {pc}) == r.All() + todo;
  }

  lemma NoteUnmapped<A(!new)>(p: Image<A>, seeds: seq<A>, r: Result<A>, todo: set<A>, pc: A)
    requires Progress(p, seeds, r, todo + {pc}) && p.at(pc).Unmapped?
    ensures Progress(p, seeds, r.(unmapped := r.unmapped + {pc}), todo)
  {
    assert r.(unmapped := r.unmapped + {pc}).All() + todo == r.All() + (todo + {pc});
  }

  lemma NoteStop<A(!new)>(p: Image<A>, seeds: seq<A>, r: Result<A>, todo: set<A>, pc: A)
    requires Progress(p, seeds, r, todo + {pc}) && p.at(pc).Stop?
    ensures Progress(p, seeds, r.(stops := r.stops + {pc}), todo)
  {
    assert r.(stops := r.stops + {pc}).All() + todo == r.All() + (todo + {pc});
  }

  function Noted<A(!new)>(r: Result<A>, pc: A, insn: Insn<A>): Result<A> {
    Result(r.insns[pc := insn],
           if insn.indirect then r.indirect + {pc} else r.indirect,
           if insn.undefined then r.stops + {pc} else r.stops,
           r.unmapped)
  }

  /** What is to do after an instruction: the rest, its targets, and what follows it. */
  ghost function After<A(!new)>(p: Image<A>, todo: set<A>, pc: A, insn: Insn<A>): set<A> {
    todo + Todo(p, insn.targets) + (if insn.ends then {} else {insn.next})
  }

  lemma NoteKinds<A(!new)>(p: Image<A>, r: Result<A>, pc: A)
    requires Kinds(p, r) && p.at(pc).Code?
    ensures Kinds(p, Noted(r, pc, p.at(pc).insn))
  {
  }

  lemma NoteReachable<A(!new)>(p: Image<A>, seeds: seq<A>, before: set<A>, todo: set<A>, pc: A)
    requires Only(p, seeds, before) && pc in before && todo <= before && p.at(pc).Code?
    ensures Only(p, seeds, before + After(p, todo, pc, p.at(pc).insn))
  {
    StaysReachable(p, seeds, pc);
  }

  lemma NoteAll<A(!new)>(p: Image<A>, r: Result<A>, todo: set<A>, pc: A, insn: Insn<A>)
    ensures Noted(r, pc, insn).All() + After(p, todo, pc, insn) == r.All() + (todo + {pc}) + After(p, todo, pc, insn)
  {
    assert Noted(r, pc, insn).insns.Keys == r.insns.Keys + {pc};
  }

  /** A larger set holds what a smaller one does. */
  lemma InsideMore<A(!new)>(p: Image<A>, insns: map<A, Insn<A>>, s: set<A>, more: set<A>)
    requires forall a :: a in insns ==> Inside(p, insns[a], s)
    ensures forall a :: a in insns ==> Inside(p, insns[a], s + more)
  {
    forall a | a in insns ensures Inside(p, insns[a], s + more) {
      assert Inside(p, insns[a], s);
    }
  }

  lemma NoteInsn<A(!new)>(p: Image<A>, seeds: seq<A>, r: Result<A>, todo: set<A>, pc: A)
    requires Progress(p, seeds, r, todo + {pc}) && p.at(pc).Code?
    ensures Progress(p, seeds, Noted(r, pc, p.at(pc).insn), After(p, todo, pc, p.at(pc).insn))
  {
    var insn := p.at(pc).insn;
    var n, next := Noted(r, pc, insn), After(p, todo, pc, insn);
    var before, after := r.All() + (todo + {pc}), n.All() + next;
    NoteKinds(p, r, pc);
    NoteReachable(p, seeds, before, todo, pc);
    NoteAll(p, r, todo, pc, insn);
    InsideMore(p, r.insns, before, next);
    forall a | a in n.insns ensures Inside(p, n.insns[a], after) {
      if a != pc { assert Inside(p, r.insns[a], before + next); }
    }
  }

  /** With nothing left to do, what was found is exactly what is reachable. */
  lemma Finished<A(!new)>(p: Image<A>, seeds: seq<A>, r: Result<A>)
    requires Progress(p, seeds, r, {})
    ensures Exact(p, seeds, r)
  {
    var all := r.All();
    assert all + {} == all;
    forall a ensures a in all <==> Reachable(p, seeds, a) {
      FoundAll(p, seeds, r, a);
    }
    KindsExact(p, seeds, r);
  }

  lemma FoundAll<A(!new)>(p: Image<A>, seeds: seq<A>, r: Result<A>, a: A)
    requires Kinds(p, r) && Followed(p, r, {}) && Seeded(p, seeds, r.All()) && Only(p, seeds, r.All())
    ensures a in r.All() <==> Reachable(p, seeds, a)
  {
    var all := r.All();
    assert all + {} == all;
    if Reachable(p, seeds, a) {
      var path :| IsPath(p, seeds, path) && path[|path| - 1] == a;
      PathInside(p, seeds, path, all, |path| - 1);
    }
  }

  lemma KindsExact<A(!new)>(p: Image<A>, seeds: seq<A>, r: Result<A>)
    requires Kinds(p, r) && forall a :: a in r.All() <==> Reachable(p, seeds, a)
    ensures Exact(p, seeds, r)
  {
  }

  /** A path from the seeds cannot leave a closed set that holds them. */
  lemma {:induction false} PathInside<A(!new)>(p: Image<A>, seeds: seq<A>, path: seq<A>, s: set<A>, k: nat)
    requires IsPath(p, seeds, path) && k < |path| && Closed(p, s) && Seeded(p, seeds, s)
    ensures path[k] in s
  {
    if k > 0 {
      PathInside(p, seeds, path, s, k - 1);
      assert Goes(p, path[k - 1], path[k]);
    }
  }

  lemma ExactAll<A(!new)>(p: Image<A>, seeds: seq<A>, r: Result<A>, a: A)
    requires Exact(p, seeds, r)
    ensures a in r.All() <==> Reachable(p, seeds, a)
  {
  }

  /** The reachable set is the least one that holds the seeds and is closed. */
  lemma ReachableIsLeast<A(!new)>(p: Image<A>, seeds: seq<A>, r: Result<A>, s: set<A>)
    requires Exact(p, seeds, r)
    ensures Closed(p, r.All()) && Seeded(p, seeds, r.All())
    ensures Closed(p, s) && Seeded(p, seeds, s) ==> r.All() <= s
  {
    var all := r.All();
    forall a ensures a in all <==> Reachable(p, seeds, a) {
      ExactAll(p, seeds, r, a);
    }
    LeastClosed(p, seeds, all, s);
  }

  lemma LeastClosed<A(!new)>(p: Image<A>, seeds: seq<A>, all: set<A>, s: set<A>)
    requires forall a :: a in all <==> Reachable(p, seeds, a)
    ensures Closed(p, all) && Seeded(p, seeds, all)
    ensures Closed(p, s) && Seeded(p, seeds, s) ==> all <= s
  {
    forall a | a in seeds ensures p.Align(a) in all {
      assert IsPath(p, seeds, [p.Align(a)]);
      assert [p.Align(a)][0] == p.Align(a);
    }
    forall a | a in all && p.at(a).Code? ensures Inside(p, p.at(a).insn, all) {
      StaysReachable(p, seeds, a);
    }
    if Closed(p, s) && Seeded(p, seeds, s) {
      forall a | a in all ensures a in s {
        var path :| IsPath(p, seeds, path) && path[|path| - 1] == a;
        PathInside(p, seeds, path, s, |path| - 1);
      }
    }
  }
}
