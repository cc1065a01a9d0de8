/** Stepping through the enabled pages: `_page_step` (main.c), for any number of pages. */
module Pager {
  import opened Division

  /** Which pages run; page 0 always does. */
  ghost predicate Pages(enabled: seq<bool>) {
    0 < |enabled| && enabled[0]
  }

  /** `page_enabled`, over the whole table: the group mask, except for page 0. */
  function EnabledPages(groups: seq<bv32>, mask: bv32): (enabled: seq<bool>)
    ensures |enabled| == |groups|
    ensures groups != [] ==> Pages(enabled)
    ensures forall i :: 0 < i < |groups| ==> (enabled[i] <==> groups[i] & mask != 0)
  {
    seq(|groups|, i requires 0 <= i < |groups| => i == 0 || groups[i] & mask != 0)
  }

  /** d places on from idx, around the end. */
  function Around(idx: int, d: int, n: nat): (r: nat)
    requires n > 0
    ensures r < n
  {
    (idx + d) % n
  }

  /** k steps of dir, as a displacement. */
  function Disp(dir: int, k: int): int {
    if dir == 1 then k else -k
  }

  lemma AroundAdds(idx: int, d: int, e: int, n: nat)
    requires n > 0
    ensures Around(Around(idx, d, n), e, n) == Around(idx, d + e, n)
  {
    var q := (idx + d) / n;
    assert idx + d == q * n + (idx + d) % n;
    AddMultiple(Around(idx, d, n) + e, q, n);
  }

  lemma AroundSelf(idx: nat, n: nat)
    requires idx < n
    ensures Around(idx, 0, n) == idx && Around(idx, n, n) == idx && Around(idx, 0 - n, n) == idx
  {
    AddMultiple(idx, 1, n);
    AddMultiple(idx, -1, n);
  }

  // ------------------------------------------------------------ one step

  /** The next enabled page in direction dir, k places on. */
  ghost predicate NextIs(enabled: seq<bool>, idx: nat, dir: int, k: nat, next: nat)
    requires Pages(enabled)
  {
    var n := |enabled|;
    1 <= k <= n && next == Around(idx, Disp(dir, k), n) && enabled[next]
    && forall m :: 1 <= m < k ==> !enabled[Around(idx, Disp(dir, m), n)]
  }

  /** The search itself, as a function: the first enabled page from idx on. */
  function Seek(enabled: seq<bool>, idx: nat, dir: int, left: nat): (next: nat)
    requires 0 < |enabled| && idx < |enabled|
    ensures next < |enabled|
    decreases left
  {
    var i := Around(idx, dir, |enabled|);
    if left == 0 then 0
    else if enabled[i] then i
    else Seek(enabled, i, dir, left - 1)
  }

  function Step(enabled: seq<bool>, idx: nat, dir: int): (next: nat)
    requires 0 < |enabled| && idx < |enabled|
    ensures next < |enabled|
  {
    Seek(enabled, idx, dir, |enabled|)
  }

  /** `_page_step`. */
  method PageStep(enabled: seq<bool>, idx0: nat, dir: int) returns (next: nat)
    requires 0 < |enabled| && idx0 < |enabled| && dir in {-1, 1}
    ensures next == Step(enabled, idx0, dir)
  {
    var idx: int := idx0;
    for k := 0 to |enabled|
      invariant 0 <= idx < |enabled|
      invariant Seek(enabled, idx, dir, |enabled| - k) == Step(enabled, idx0, dir)
    {
      ghost var was := idx;
      idx := idx + dir;
      if idx < 0 {
        idx := |enabled| - 1;
      }
      if idx >= |enabled| {
        idx := 0;
      }
      Wrapped(was, dir, |enabled|, idx);
      if enabled[idx] {
        return idx;
      }
    }
    return 0;
  }

  lemma Wrapped(was: nat, dir: int, n: nat, idx: int)
    requires was < n && dir in {-1, 1}
    requires idx == if was + dir < 0 then n - 1 else if was + dir >= n then 0 else was + dir
    ensures idx == Around(was, dir, n)
  {
    if was + dir < 0 {
      DivModIs(was + dir, -1, n - 1, n);
    } else if was + dir >= n {
      DivModIs(was + dir, 1, 0, n);
    } else {
      DivModIs(was + dir, 0, was + dir, n);
    }
  }

  lemma LapMeetsPageZero(start: nat, dir: int, n: nat) returns (z: nat)
    requires start < n && dir in {-1, 1}
    ensures 1 <= z <= n && Around(start, Disp(dir, z), n) == 0
  {
    z := if dir == 1 then n - start else if start == 0 then n else start;
    AddMultiple(0, if dir == 1 then 1 else -1, n);
  }

  /** Page 0 is enabled, so the search always ends on an enabled page before going once around. */
  lemma {:induction false} SeekFinds(enabled: seq<bool>, idx: nat, dir: int, left: nat, k: nat, start: nat)
    requires Pages(enabled) && start < |enabled| && dir in {-1, 1}
    requires k + left == |enabled| && idx == Around(start, Disp(dir, k), |enabled|)
    requires forall m :: 1 <= m <= k ==> !enabled[Around(start, Disp(dir, m), |enabled|)]
    ensures exists j: nat :: NextIs(enabled, start, dir, j, Seek(enabled, idx, dir, left))
    decreases left
  {
    hide Around;
    var n := |enabled|;
    if left == 0 {
      var z := LapMeetsPageZero(start, dir, n);
      assert false;
    } else {
      AroundAdds(start, Disp(dir, k), dir, n);
      var i := Around(idx, dir, n);
      if enabled[i] {
        assert NextIs(enabled, start, dir, k + 1, i);
        assert Seek(enabled, idx, dir, left) == i;
      } else {
        SeekFinds(enabled, i, dir, left - 1, k + 1, start);
        assert Seek(enabled, idx, dir, left) == Seek(enabled, i, dir, left - 1);
      }
    }
  }

  lemma StepFinds(enabled: seq<bool>, idx: nat, dir: int) returns (k: nat)
    requires Pages(enabled) && idx < |enabled| && dir in {-1, 1}
    ensures NextIs(enabled, idx, dir, k, Step(enabled, idx, dir))
  {
    hide Around;
    AroundSelf(idx, |enabled|);
    SeekFinds(enabled, idx, dir, |enabled|, 0, idx);
    k :| NextIs(enabled, idx, dir, k, Step(enabled, idx, dir));
  }

  /** Only one page can be next. */
  lemma NextUnique(enabled: seq<bool>, idx: nat, dir: int, j: nat, a: nat, k: nat, b: nat)
    requires Pages(enabled) && idx < |enabled|
    requires NextIs(enabled, idx, dir, j, a) && NextIs(enabled, idx, dir, k, b)
    ensures a == b
  {
  }

  /** On enabled pages, forward and backward undo each other: each is a permutation of the enabled
      pages and the other is its inverse. */
  lemma StepsAreInverse(enabled: seq<bool>, idx: nat, dir: int)
    requires Pages(enabled) && idx < |enabled| && enabled[idx] && dir in {-1, 1}
    ensures enabled[Step(enabled, idx, dir)]
    ensures Step(enabled, Step(enabled, idx, dir), -dir) == idx
  {
    hide Around, Step;
    var n := |enabled|;
    var k := StepFinds(enabled, idx, dir);
    var j := Step(enabled, idx, dir);
    var back := -dir;
    forall m | 0 <= m <= k
      ensures Around(j, Disp(back, m), n) == Around(idx, Disp(dir, k - m), n)
    {
      AroundAdds(idx, Disp(dir, k), Disp(back, m), n);
    }
    AroundSelf(idx, n);
    assert Around(j, Disp(back, k), n) == idx;
    assert NextIs(enabled, j, -dir, k, idx);
    var b := StepFinds(enabled, j, -dir);
    NextUnique(enabled, j, -dir, k, idx, b, Step(enabled, j, -dir));
  }

  // ------------------------------------------------------- a batch of keys

  /** With every page enabled a forward step shows the next page and a back step the one before, around both
      ends. */
  lemma NeighbourPages(enabled: seq<bool>, idx: nat)
    requires idx < |enabled| && forall i :: 0 <= i < |enabled| ==> enabled[i]
    ensures Step(enabled, idx, 1) == if idx == |enabled| - 1 then 0 else idx + 1
    ensures Step(enabled, idx, -1) == if idx == 0 then |enabled| - 1 else idx - 1
  {
    var n := |enabled|;
    Wrapped(idx, 1, n, if idx == n - 1 then 0 else idx + 1);
    Wrapped(idx, -1, n, if idx == 0 then n - 1 else idx - 1);
    hide Around;
  }

  datatype Nav = Forward | Back

  function Dir(k: Nav): int {
    if k.Forward? then 1 else -1
  }

  /** Each key run on its own, in order. */
  function EachInTurn(enabled: seq<bool>, page: nat, keys: seq<Nav>): (next: nat)
    requires 0 < |enabled| && page < |enabled|
    ensures next < |enabled|
    decreases |keys|
  {
    if keys == [] then page
    else EachInTurn(enabled, Step(enabled, page, Dir(keys[0])), keys[1..])
  }

  function Net(keys: seq<Nav>): int {
    if keys == [] then 0 else Dir(keys[0]) + Net(keys[1..])
  }

  /** `delta` steps in its own direction. */
  function Apply(enabled: seq<bool>, page: nat, delta: int): (next: nat)
    requires 0 < |enabled| && page < |enabled|
    ensures next < |enabled|
    decreases if delta < 0 then -delta else delta
  {
    if delta > 0 then Apply(enabled, Step(enabled, page, 1), delta - 1)
    else if delta < 0 then Apply(enabled, Step(enabled, page, -1), delta + 1)
    else page
  }

  /** The two loops after the batch was read. */
  method ApplyDelta(enabled: seq<bool>, page0: nat, delta0: int) returns (page: nat)
    requires 0 < |enabled| && page0 < |enabled|
    ensures page == Apply(enabled, page0, delta0)
  {
    var delta := delta0;
    page := page0;
    while delta > 0
      invariant page < |enabled| && (delta0 > 0 ==> delta >= 0) && (delta0 <= 0 ==> delta == delta0)
      invariant Apply(enabled, page, delta) == Apply(enabled, page0, delta0)
    {
      page := PageStep(enabled, page, 1);
      delta := delta - 1;
    }
    while delta < 0
      invariant page < |enabled| && delta <= 0
      invariant Apply(enabled, page, delta) == Apply(enabled, page0, delta0)
    {
      page := PageStep(enabled, page, -1);
      delta := delta + 1;
    }
  }

  /** One step first and then d more is d + 1, whichever way d points. */
  lemma ApplyOneMore(enabled: seq<bool>, page: nat, dir: int, d: int)
    requires Pages(enabled) && page < |enabled| && enabled[page] && dir in {-1, 1}
    ensures Apply(enabled, Step(enabled, page, dir), d) == Apply(enabled, page, d + dir)
  {
    if (d < 0 && dir == 1) || (d > 0 && dir == -1) {
      StepsAreInverse(enabled, page, dir);
    }
  }

  /** The batch rule: the net of any run of navigation keys, applied at once, reaches the page that
      the keys reach one at a time. */
  lemma {:induction false} BatchIsEachInTurn(enabled: seq<bool>, page: nat, keys: seq<Nav>)
    requires Pages(enabled) && page < |enabled| && enabled[page]
    ensures Apply(enabled, page, Net(keys)) == EachInTurn(enabled, page, keys)
    ensures enabled[EachInTurn(enabled, page, keys)]
    decreases |keys|
  {
    if keys != [] {
      var dir := Dir(keys[0]);
      StepsAreInverse(enabled, page, dir);
      BatchIsEachInTurn(enabled, Step(enabled, page, dir), keys[1..]);
      ApplyOneMore(enabled, page, dir, Net(keys[1..]));
    }
  }

  /** From a disabled page the rule fails: forward then back from page 1 of three, with only page 0
      and page 2 enabled, ends on page 0 while the net of the two keys stays on page 1. */
  lemma DisabledPageBreaksTheBatch()
    ensures var enabled := [true, false, true];
            Apply(enabled, 1, Net([Forward, Back])) == 1 && EachInTurn(enabled, 1, [Forward, Back]) == 0
  {
    var enabled := [true, false, true];
    var keys := [Forward, Back];
    assert keys[1..] == [Back] && [Back][1..] == [];
    assert Net([Back]) == -1 && Net(keys) == 0;
    assert Step(enabled, 1, 1) == 2;
    assert Seek(enabled, 2, -1, 3) == Seek(enabled, 1, -1, 2) == 0;
    assert EachInTurn(enabled, 2, [Back]) == 0;
  }
}
