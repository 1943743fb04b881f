// WrapperGenerator's ordering of the classes (generate's split into the two
// batches and sortClasses) and the names and parameter lists that the
// managed declarations and the native registrations must agree on. The
// surrounding emission text is not modelled; the generator's ambient
// `currentContext` is the parameter `ctx`.

module Generation {
  import opened Text
  import opened Symbols
  import opened Resolve

  // ---------------------------------------------------------------------
  // sortClasses

  /** Every entry of the list is a declaration of the table. */
  predicate InTable(t: Table, l: seq<TypeId>)
  {
    forall k :: 0 <= k < |l| ==> l[k] < |t.decls|
  }

  /** The parent of class c as sortClasses resolves it: the class's parent
      name, looked up from the class's own scope. */
  function BatchParent(t: Table, c: TypeId): (r: Option<TypeId>)
    requires Valid(t) && c < |t.decls|
    ensures r.Some? ==> r.value < |t.decls|
  {
    assert DeclOk(t, c);
    FindClass(t, t.decls[c].context, t.decls[c].parentClass)
  }

  /** Class c may be placed after `placed`: it is a declaration whose parent
      does not resolve or has been placed already. */
  predicate Ready(ps: seq<Option<TypeId>>, c: TypeId, placed: seq<TypeId>)
  {
    c < |ps| && (ps[c].None? || ps[c].value in placed)
  }

  /** Every class of the list comes after its (resolvable) parent. */
  predicate ParentFirst(ps: seq<Option<TypeId>>, l: seq<TypeId>)
  {
    forall k :: 0 <= k < |l| ==> Ready(ps, l[k], l[..k])
  }

  /** One pass of sortClasses over the pending classes: scanning left to
      right, each class that is ready moves to the end of the placed list
      (where the classes after it already see it); the result is the new
      placed list and the classes left, in their order. */
  function Pass(ps: seq<Option<TypeId>>, pending: seq<TypeId>, placed: seq<TypeId>): (r: (seq<TypeId>, seq<TypeId>))
    ensures |r.0| + |r.1| == |placed| + |pending|
    ensures placed <= r.0
    decreases |pending|
  {
    if pending == [] then (placed, [])
    else if Ready(ps, pending[0], placed) then Pass(ps, pending[1..], placed + [pending[0]])
    else
      var r := Pass(ps, pending[1..], placed);
      (r.0, [pending[0]] + r.1)
  }

  /** What sortClasses ends with. */
  datatype SortOutcome = Sorted(order: seq<TypeId>) | Unsortable(rest: seq<TypeId>)

  /** Passes repeat until nothing is pending (success, with the placed
      classes in placement order) or a pass places nothing (failure, with the
      classes left). */
  function SortFrom(ps: seq<Option<TypeId>>, pending: seq<TypeId>, placed: seq<TypeId>): SortOutcome
    decreases |pending|
  {
    var r := Pass(ps, pending, placed);
    if r.1 == [] then Sorted(r.0)
    else if |r.0| == |placed| then Unsortable(r.1)
    else SortFrom(ps, r.1, r.0)
  }

  /** The parent of every declaration, as sortClasses resolves it. */
  function Parents(t: Table): (ps: seq<Option<TypeId>>)
    requires Valid(t)
  {
    seq(|t.decls|, c requires 0 <= c < |t.decls| => BatchParent(t, c))
  }

  /** What sortClasses does to the list. */
  function SortSpec(t: Table, classList: seq<TypeId>): SortOutcome
    requires Valid(t) && InTable(t, classList)
  {
    SortFrom(Parents(t), classList, [])
  }

  /** WrapperGenerator.sortClasses, on the list's value: passes repeat until
      the list is empty, and a pass that moves nothing while classes remain
      gives up, leaving only those classes in the list. */
  method SortClasses(t: Table, input: seq<TypeId>) returns (ok: bool, classList: seq<TypeId>)
    requires Valid(t) && InTable(t, input)
    ensures (if ok then Sorted(classList) else Unsortable(classList)) == SortSpec(t, input)
  {
    classList := input;
    var addedMap: set<TypeId> := {};
    var newList: seq<TypeId> := [];
    while true
      invariant InTable(t, classList)
      invariant forall x :: x in addedMap <==> x in newList
      invariant SortFrom(Parents(t), classList, newList) == SortSpec(t, input)
      decreases |classList|
    {
      var classAdded;
      classAdded, classList, newList, addedMap := SortPass(t, classList, newList, addedMap);
      if |classList| == 0 {
        break;
      } else if !classAdded {
        return false, classList;
      }
    }
    classList := classList + newList;
    ok := true;
  }

  /** One pass of sortClasses' outer loop: each class of `classList` whose
      parent does not resolve or is in `addedMap` is removed from the list
      (the index steps back so that the next class is not skipped) and
      appended to `newList`. */
  method SortPass(t: Table, classList0: seq<TypeId>, newList0: seq<TypeId>, addedMap0: set<TypeId>)
    returns (classAdded: bool, classList: seq<TypeId>, newList: seq<TypeId>, addedMap: set<TypeId>)
    requires Valid(t) && InTable(t, classList0)
    requires forall x :: x in addedMap0 <==> x in newList0
    ensures InTable(t, classList)
    ensures forall x :: x in addedMap <==> x in newList
    ensures Pass(Parents(t), classList0, newList0) == (newList, classList)
    ensures classAdded <==> |newList| > |newList0|
  {
    ghost var ps := Parents(t);
    classList, newList, addedMap := classList0, newList0, addedMap0;
    classAdded := false;
    var size := |classList|;
    var i := 0;
    PassSplitStart(ps, classList, newList);
    while i < size
      invariant 0 <= i <= size == |classList|
      invariant InTable(t, classList)
      invariant forall x :: x in addedMap <==> x in newList
      invariant PassSplit(ps, classList0, newList0, classList, i, newList)
      invariant |newList0| <= |newList|
      invariant classAdded <==> |newList| > |newList0|
      decreases size - i
    {
      classAdded, classList, newList, addedMap, i, size :=
        SortStep(t, classList0, newList0, classAdded, classList, newList, addedMap, i);
    }
    PassSplitEnd(ps, classList0, newList0, classList, newList);
  }

  /** Pass on a list that starts with a ready class: the class is placed. */
  lemma PassPlacesHead(ps: seq<Option<TypeId>>, x: TypeId, tail: seq<TypeId>, placed: seq<TypeId>)
    requires Ready(ps, x, placed)
    ensures Pass(ps, [x] + tail, placed) == Pass(ps, tail, placed + [x])
  {
    assert ([x] + tail)[1..] == tail;
  }

  /** Pass on a list that starts with a class that is not ready: the class
      stays, in front of what the rest leaves. */
  lemma PassSkipsHead(ps: seq<Option<TypeId>>, x: TypeId, tail: seq<TypeId>, placed: seq<TypeId>)
    requires !Ready(ps, x, placed)
    ensures var r := Pass(ps, tail, placed);
      Pass(ps, [x] + tail, placed) == (r.0, [x] + r.1)
  {
    assert ([x] + tail)[1..] == tail;
  }

  /** One iteration of the loop of a pass: the class at i is moved to
      `newList` when it is ready (and i steps back over the removed slot), or
      stays; either way the next iteration looks at the class after it. */
  method SortStep(t: Table, ghost classList0: seq<TypeId>, ghost newList0: seq<TypeId>,
                  classAdded0: bool, classList1: seq<TypeId>, newList1: seq<TypeId>,
                  addedMap1: set<TypeId>, i0: nat)
    returns (classAdded: bool, classList: seq<TypeId>, newList: seq<TypeId>,
             addedMap: set<TypeId>, i: nat, size: nat)
    requires Valid(t) && InTable(t, classList1) && i0 < |classList1|
    requires forall x :: x in addedMap1 <==> x in newList1
    requires PassSplit(Parents(t), classList0, newList0, classList1, i0, newList1)
    requires |newList0| <= |newList1|
    requires classAdded0 <==> |newList1| > |newList0|
    ensures size == |classList| && i <= size && size - i < |classList1| - i0
    ensures InTable(t, classList)
    ensures forall x :: x in addedMap <==> x in newList
    ensures PassSplit(Parents(t), classList0, newList0, classList, i, newList)
    ensures |newList0| <= |newList|
    ensures classAdded <==> |newList| > |newList0|
  {
    ghost var ps := Parents(t);
    classAdded, classList, newList, addedMap, i := classAdded0, classList1, newList1, addedMap1, i0;
    var wrapClass := classList[i];
    assert DeclOk(t, wrapClass);
    var parentClass := FindClass(t, t.decls[wrapClass].context, t.decls[wrapClass].parentClass);
    assert parentClass == ps[wrapClass];
    if parentClass.None? || parentClass.value in addedMap {
      PlaceReady(ps, classList0, newList0, classList, i, newList);
      newList := newList + [wrapClass];
      addedMap := addedMap + {wrapClass};
      classAdded := true;
      classList := classList[..i] + classList[i + 1..];
    } else {
      SkipUnready(ps, classList0, newList0, classList, i, newList);
      i := i + 1;
    }
    size := |classList|;
  }

  /** The state of a pass of sortClasses at index i: the classes before i
      stayed, and the pass over the rest finishes the pass over the list the
      loop started with. */
  predicate PassSplit(ps: seq<Option<TypeId>>, pending0: seq<TypeId>, placed0: seq<TypeId>,
                      l: seq<TypeId>, i: nat, placed: seq<TypeId>)
  {
    i <= |l| &&
    var r := Pass(ps, l[i..], placed);
    Pass(ps, pending0, placed0) == (r.0, l[..i] + r.1)
  }

  lemma PassSplitStart(ps: seq<Option<TypeId>>, l: seq<TypeId>, placed: seq<TypeId>)
    ensures PassSplit(ps, l, placed, l, 0, placed)
  {
    assert l[0..] == l;
    assert l[..0] + Pass(ps, l, placed).1 == Pass(ps, l, placed).1;
  }

  lemma PassSplitEnd(ps: seq<Option<TypeId>>, pending0: seq<TypeId>, placed0: seq<TypeId>,
                     l: seq<TypeId>, placed: seq<TypeId>)
    requires PassSplit(ps, pending0, placed0, l, |l|, placed)
    ensures Pass(ps, pending0, placed0) == (placed, l)
  {
    assert l[|l|..] == [];
    assert l[..|l|] + [] == l;
  }

  /** The loop step of sortClasses that moves the ready class at i. */
  lemma PlaceReady(ps: seq<Option<TypeId>>, pending0: seq<TypeId>, placed0: seq<TypeId>,
                   l: seq<TypeId>, i: nat, placed: seq<TypeId>)
    requires i < |l| && PassSplit(ps, pending0, placed0, l, i, placed)
    requires Ready(ps, l[i], placed)
    ensures PassSplit(ps, pending0, placed0, l[..i] + l[i + 1..], i, placed + [l[i]])
  {
    var l' := l[..i] + l[i + 1..];
    assert l[i..] == [l[i]] + l[i + 1..];
    PassPlacesHead(ps, l[i], l[i + 1..], placed);
    assert l'[i..] == l[i + 1..];
    assert l'[..i] == l[..i];
  }

  /** The loop step of sortClasses that skips the class at i. */
  lemma SkipUnready(ps: seq<Option<TypeId>>, pending0: seq<TypeId>, placed0: seq<TypeId>,
                    l: seq<TypeId>, i: nat, placed: seq<TypeId>)
    requires i < |l| && PassSplit(ps, pending0, placed0, l, i, placed)
    requires !Ready(ps, l[i], placed)
    ensures PassSplit(ps, pending0, placed0, l, i + 1, placed)
  {
    var r := Pass(ps, l[i + 1..], placed);
    assert l[i..] == [l[i]] + l[i + 1..];
    PassSkipsHead(ps, l[i], l[i + 1..], placed);
    assert l[..i + 1] == l[..i] + [l[i]];
    assert l[..i] + ([l[i]] + r.1) == l[..i + 1] + r.1;
  }

  // ---------------------------------------------------------------------
  // What a pass and the whole sort guarantee

  /** A pass keeps the classes: placed and left together are what was
      placed and pending. */
  lemma {:induction false} PassPermutes(ps: seq<Option<TypeId>>, pending: seq<TypeId>, placed: seq<TypeId>)
    ensures var r := Pass(ps, pending, placed);
      multiset(r.0) + multiset(r.1) == multiset(placed) + multiset(pending)
    decreases |pending|
  {
    if pending != [] {
      var x := pending[0];
      assert pending == [x] + pending[1..];
      assert multiset(pending) == multiset([x]) + multiset(pending[1..]);
      if Ready(ps, x, placed) {
        assert Pass(ps, pending, placed) == Pass(ps, pending[1..], placed + [x]);
        PassPermutes(ps, pending[1..], placed + [x]);
        assert multiset(placed + [x]) == multiset(placed) + multiset([x]);
      } else {
        var r := Pass(ps, pending[1..], placed);
        assert Pass(ps, pending, placed) == (r.0, [x] + r.1);
        PassPermutes(ps, pending[1..], placed);
        calc {
          multiset(r.0) + multiset([x] + r.1);
          multiset(r.0) + multiset(r.1) + multiset([x]);
          multiset(placed) + multiset(pending[1..]) + multiset([x]);
          multiset(placed) + multiset(pending);
        }
      }
    }
  }

  /** A pass that places nothing leaves every pending class where it was, and
      then none of them was ready. */
  lemma {:induction false} PassStalls(ps: seq<Option<TypeId>>, pending: seq<TypeId>, placed: seq<TypeId>)
    requires |Pass(ps, pending, placed).0| == |placed|
    ensures Pass(ps, pending, placed).1 == pending
    ensures forall k :: 0 <= k < |pending| ==> !Ready(ps, pending[k], placed)
    decreases |pending|
  {
    if pending != [] {
      if Ready(ps, pending[0], placed) {
        assert false;
      } else {
        PassStalls(ps, pending[1..], placed);
        assert forall k :: 1 <= k < |pending| ==> pending[k] == pending[1..][k - 1];
      }
    }
  }

  /** Appending a ready class keeps a list parent-first. */
  lemma AppendReady(ps: seq<Option<TypeId>>, placed: seq<TypeId>, c: TypeId)
    requires ParentFirst(ps, placed) && Ready(ps, c, placed)
    ensures ParentFirst(ps, placed + [c])
  {
    var l := placed + [c];
    forall k | 0 <= k < |l|
      ensures Ready(ps, l[k], l[..k])
    {
      if k < |placed| {
        assert l[..k] == placed[..k];
      } else {
        assert l[..k] == placed;
      }
    }
  }

  /** A pass extends a parent-first placed list to a parent-first one. */
  lemma {:induction false} PassKeepsParentFirst(ps: seq<Option<TypeId>>, pending: seq<TypeId>, placed: seq<TypeId>)
    requires ParentFirst(ps, placed)
    ensures ParentFirst(ps, Pass(ps, pending, placed).0)
    decreases |pending|
  {
    if pending != [] {
      if Ready(ps, pending[0], placed) {
        AppendReady(ps, placed, pending[0]);
        PassKeepsParentFirst(ps, pending[1..], placed + [pending[0]]);
      } else {
        PassKeepsParentFirst(ps, pending[1..], placed);
      }
    }
  }

  /** Pending classes that each find their parent before them are placed by
      one pass, in their order. */
  lemma {:induction false} PassPlacesOrdered(ps: seq<Option<TypeId>>, pending: seq<TypeId>, placed: seq<TypeId>)
    requires forall k :: 0 <= k < |pending| ==> Ready(ps, pending[k], placed + pending[..k])
    ensures Pass(ps, pending, placed) == (placed + pending, [])
    decreases |pending|
  {
    if pending != [] {
      assert pending[..0] == [] && placed + [] == placed;
      assert Ready(ps, pending[0], placed);
      var rest := pending[1..];
      forall k | 0 <= k < |rest|
        ensures Ready(ps, rest[k], placed + [pending[0]] + rest[..k])
      {
        assert pending[..k + 1] == [pending[0]] + rest[..k];
        assert placed + pending[..k + 1] == placed + [pending[0]] + rest[..k];
      }
      PassPlacesOrdered(ps, rest, placed + [pending[0]]);
      assert placed + [pending[0]] + rest == placed + pending;
    }
  }

  /** On success the order is a permutation of the input that is parent-first. */
  lemma {:induction false} SortFromSorted(ps: seq<Option<TypeId>>, pending: seq<TypeId>, placed: seq<TypeId>)
    requires ParentFirst(ps, placed)
    ensures SortFrom(ps, pending, placed).Sorted? ==>
      var o := SortFrom(ps, pending, placed).order;
      multiset(o) == multiset(placed) + multiset(pending) && ParentFirst(ps, o)
    decreases |pending|
  {
    var r := Pass(ps, pending, placed);
    PassPermutes(ps, pending, placed);
    PassKeepsParentFirst(ps, pending, placed);
    if r.1 != [] && |r.0| != |placed| {
      SortFromSorted(ps, r.1, r.0);
    }
  }

  /** On failure the classes left are some of the input, none of them
      placed earlier, and each has a parent that resolves but was never
      placed: the parent is among the classes left or outside the batch. */
  lemma {:induction false} SortFromUnsortable(ps: seq<Option<TypeId>>, pending: seq<TypeId>, placed: seq<TypeId>)
    ensures SortFrom(ps, pending, placed).Unsortable? ==>
      var rest := SortFrom(ps, pending, placed).rest;
      rest != [] && multiset(rest) <= multiset(pending)
      && forall k :: 0 <= k < |rest| ==>
           rest[k] < |ps| ==>
             ps[rest[k]].Some?
             && ps[rest[k]].value !in placed
             && (ps[rest[k]].value in pending ==> ps[rest[k]].value in rest)
    decreases |pending|
  {
    var r := Pass(ps, pending, placed);
    PassPermutes(ps, pending, placed);
    if r.1 != [] {
      if |r.0| == |placed| {
        PassStalls(ps, pending, placed);
      } else {
        SortFromUnsortable(ps, r.1, r.0);
        var tail := r.0[|placed|..];
        assert r.0 == placed + tail;
        assert multiset(r.0) == multiset(placed) + multiset(tail);
        forall y ensures multiset(r.1)[y] <= multiset(pending)[y] {
          assert (multiset(r.0) + multiset(r.1))[y] == (multiset(placed) + multiset(pending))[y];
        }
        if SortFrom(ps, r.1, r.0).Unsortable? {
          var rest := SortFrom(ps, r.1, r.0).rest;
          forall k | 0 <= k < |rest| && rest[k] < |ps|
            ensures ps[rest[k]].value !in placed
            ensures ps[rest[k]].value in pending ==> ps[rest[k]].value in rest
          {
            var p := ps[rest[k]].value;
            assert p !in r.0;
            assert multiset(r.0)[p] == 0;
            assert multiset(placed)[p] == 0;
            if p in pending {
              assert p in multiset(r.0) + multiset(r.1);
            }
          }
        }
      }
    }
  }

  /** sortClasses on success: the list becomes a permutation of its input in
      which every class comes after its parent. */
  lemma SortedIsParentFirstPermutation(t: Table, input: seq<TypeId>)
    requires Valid(t) && InTable(t, input)
    ensures SortSpec(t, input).Sorted? ==>
      var o := SortSpec(t, input).order;
      InTable(t, o) && multiset(o) == multiset(input) && ParentFirst(Parents(t), o)
  {
    SortFromSorted(Parents(t), input, []);
  }

  /** sortClasses on failure: the list holds only classes of the input that
      were not placed; each names a parent that resolves and that is either
      one of them (a cycle) or not in the batch. */
  lemma UnsortableCharacterized(t: Table, input: seq<TypeId>)
    requires Valid(t) && InTable(t, input)
    ensures SortSpec(t, input).Unsortable? ==>
      var rest := SortSpec(t, input).rest;
      rest != [] && InTable(t, rest) && multiset(rest) <= multiset(input)
      && forall k :: 0 <= k < |rest| ==>
           BatchParent(t, rest[k]).Some?
           && (BatchParent(t, rest[k]).value in rest || BatchParent(t, rest[k]).value !in input)
  {
    SortFromUnsortable(Parents(t), input, []);
    if SortSpec(t, input).Unsortable? {
      var rest := SortSpec(t, input).rest;
      forall k | 0 <= k < |rest| ensures rest[k] < |t.decls| {
        assert rest[k] in multiset(rest);
        assert rest[k] in multiset(input);
      }
    }
  }

  /** A list that is already parent-first is left as it is. */
  lemma ParentFirstUnchanged(t: Table, input: seq<TypeId>)
    requires Valid(t) && InTable(t, input) && ParentFirst(Parents(t), input)
    ensures SortSpec(t, input) == Sorted(input)
  {
    var ps := Parents(t);
    forall k | 0 <= k < |input|
      ensures Ready(ps, input[k], [] + input[..k])
    {
      assert [] + input[..k] == input[..k];
    }
    PassPlacesOrdered(ps, input, []);
    assert [] + input == input;
  }

  /** Sorting a sorted list changes nothing. */
  lemma SortIdempotent(t: Table, input: seq<TypeId>)
    requires Valid(t) && InTable(t, input) && SortSpec(t, input).Sorted?
    ensures var o := SortSpec(t, input).order;
      InTable(t, o) && SortSpec(t, o) == Sorted(o)
  {
    SortedIsParentFirstPermutation(t, input);
    ParentFirstUnchanged(t, SortSpec(t, input).order);
  }

  // ---------------------------------------------------------------------
  // generate: the two batches

  /** The classes of the list implemented on the given side, in list order. */
  function Batch(t: Table, l: seq<TypeId>, side: Interface): (r: seq<TypeId>)
    requires InTable(t, l)
    ensures InTable(t, r)
    ensures forall k :: 0 <= k < |r| ==> t.decls[r[k]].interfaceType == side
    decreases |l|
  {
    if l == [] then []
    else
      var last := l[|l| - 1];
      Batch(t, l[..|l| - 1], side) + (if t.decls[last].interfaceType == side then [last] else [])
  }

  /** The two batches split the classes: together they hold each class
      exactly as often as the list does. */
  lemma {:induction false} BatchesPartition(t: Table, l: seq<TypeId>)
    requires InTable(t, l)
    ensures multiset(Batch(t, l, CppToCSharp)) + multiset(Batch(t, l, CSharpToCpp)) == multiset(l)
    decreases |l|
  {
    if l != [] {
      var init, last := l[..|l| - 1], l[|l| - 1];
      var left := t.decls[last].interfaceType == CppToCSharp;
      BatchesPartition(t, init);
      assert Batch(t, l, CppToCSharp) == Batch(t, init, CppToCSharp) + (if left then [last] else []);
      assert Batch(t, l, CSharpToCpp) == Batch(t, init, CSharpToCpp) + (if left then [] else [last]);
      assert l == init + [last];
      SplitSnoc(Batch(t, init, CppToCSharp), Batch(t, init, CSharpToCpp), init, last, left);
    }
  }

  /** Adding one element to one of two parts of a split list. */
  lemma SplitSnoc(a: seq<TypeId>, b: seq<TypeId>, c: seq<TypeId>, x: TypeId, left: bool)
    requires multiset(a) + multiset(b) == multiset(c)
    ensures multiset(a + (if left then [x] else [])) + multiset(b + (if left then [] else [x]))
            == multiset(c + [x])
  {
    assert multiset(c + [x]) == multiset(c) + multiset{x};
    if left {
      assert multiset(a + [x]) == multiset(a) + multiset{x};
      assert b + [] == b;
    } else {
      assert multiset(b + [x]) == multiset(b) + multiset{x};
      assert a + [] == a;
    }
  }

  /** A list of classes of one side is its own batch: the split keeps the
      declaration order. */
  lemma {:induction false} BatchKeepsOrder(t: Table, l: seq<TypeId>, side: Interface)
    requires InTable(t, l)
    requires forall k :: 0 <= k < |l| ==> t.decls[l[k]].interfaceType == side
    ensures Batch(t, l, side) == l
    decreases |l|
  {
    if l != [] {
      BatchKeepsOrder(t, l[..|l| - 1], side);
      assert l == l[..|l| - 1] + [l[|l| - 1]];
    }
  }

  /** The partition loop of generate. */
  method SplitBatches(g: Generator) returns (cppToCsClasses: seq<TypeId>, csToCppClasses: seq<TypeId>)
    requires GenValid(g)
    ensures InTable(g.table, g.classes)
    ensures cppToCsClasses == Batch(g.table, g.classes, CppToCSharp)
    ensures csToCppClasses == Batch(g.table, g.classes, CSharpToCpp)
  {
    assert forall k :: 0 <= k < |g.classes| ==> IsClass(g.table, g.classes[k]);
    cppToCsClasses := [];
    csToCppClasses := [];
    for i := 0 to |g.classes|
      invariant cppToCsClasses == Batch(g.table, g.classes[..i], CppToCSharp)
      invariant csToCppClasses == Batch(g.table, g.classes[..i], CSharpToCpp)
    {
      var wrapClass := g.classes[i];
      assert g.classes[..i + 1][..i] == g.classes[..i];
      if g.table.decls[wrapClass].interfaceType == CppToCSharp {
        cppToCsClasses := cppToCsClasses + [wrapClass];
      } else if g.table.decls[wrapClass].interfaceType == CSharpToCpp {
        csToCppClasses := csToCppClasses + [wrapClass];
      }
    }
    assert g.classes[..|g.classes|] == g.classes;
  }

  /** The ordering part of WrapperGenerator.generate: split the classes into
      the two batches and sort each, failing as soon as one cannot be
      sorted. On success each batch is a parent-first permutation of the
      classes of its side. */
  method Generate(g: Generator) returns (ok: bool, cppToCsClasses: seq<TypeId>, csToCppClasses: seq<TypeId>)
    requires GenValid(g)
    ensures ok <==> SortSpec(g.table, Batch(g.table, g.classes, CppToCSharp)).Sorted?
                    && SortSpec(g.table, Batch(g.table, g.classes, CSharpToCpp)).Sorted?
    ensures ok ==> InTable(g.table, cppToCsClasses) && InTable(g.table, csToCppClasses)
    ensures ok ==> ParentFirst(Parents(g.table), cppToCsClasses)
                   && ParentFirst(Parents(g.table), csToCppClasses)
    ensures ok ==> multiset(cppToCsClasses) + multiset(csToCppClasses) == multiset(g.classes)
    ensures ok ==> forall k :: 0 <= k < |cppToCsClasses| ==>
                     g.table.decls[cppToCsClasses[k]].interfaceType == CppToCSharp
    ensures ok ==> forall k :: 0 <= k < |csToCppClasses| ==>
                     g.table.decls[csToCppClasses[k]].interfaceType == CSharpToCpp
  {
    var cppBatch, csBatch := SplitBatches(g);
    BatchesPartition(g.table, g.classes);
    SortedIsParentFirstPermutation(g.table, cppBatch);
    SortedIsParentFirstPermutation(g.table, csBatch);
    var sorted;
    sorted, cppToCsClasses := SortClasses(g.table, cppBatch);
    if !sorted {
      csToCppClasses := csBatch;
      return false, cppToCsClasses, csToCppClasses;
    }
    sorted, csToCppClasses := SortClasses(g.table, csBatch);
    if !sorted {
      return false, cppToCsClasses, csToCppClasses;
    }
    assert forall k :: 0 <= k < |cppToCsClasses| ==> cppToCsClasses[k] in multiset(cppBatch);
    assert forall k :: 0 <= k < |csToCppClasses| ==> csToCppClasses[k] in multiset(csBatch);
    ok := true;
  }
}
