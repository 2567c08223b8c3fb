/** The dispatcher's pass over the ready clients: four bands, each scanned once around from
    a cursor that moves on every dispatch. */
module Dispatcher {
  import opened Protocol

  /** The band of a ready client (3 for control requests, then by priority), or None. */
  type Ready = seq<Option<nat>>

  /** What a scan leaves: who is still ready, the cursor, and who was dispatched, in order. */
  datatype Scan = Scan(ready: Ready, cursor: nat, order: seq<nat>)

  predicate WaitsIn(ready: Ready, band: nat, c: nat) {
    c < |ready| && ready[c] == Some(band)
  }

  /** Client `offset` places after the cursor. */
  function Around(cursor: nat, offset: nat, n: nat): (c: nat)
    requires n > 0
    ensures c < n
  {
    (cursor + offset) % n
  }

  /** The scan of one band from `offset` on; the cursor moves within it. */
  function ScanBand(ready: Ready, cursor: nat, band: nat, offset: nat): (s: Scan)
    requires 0 < |ready| && offset <= |ready|
    ensures |s.ready| == |ready| && (cursor < |ready| ==> s.cursor < |ready|)
    decreases |ready| - offset
  {
    if offset == |ready| then Scan(ready, cursor, [])
    else
      var c := Around(cursor, offset, |ready|);
      if ready[c] == Some(band) then
        var rest := ScanBand(ready[c := None], Around(c, 1, |ready|), band, offset + 1);
        rest.(order := [c] + rest.order)
      else ScanBand(ready, cursor, band, offset + 1)
  }

  /** The bands from `band` down to 0. */
  function Bands(ready: Ready, cursor: nat, band: nat): (s: Scan)
    requires 0 < |ready|
    ensures |s.ready| == |ready| && (cursor < |ready| ==> s.cursor < |ready|)
    decreases band
  {
    var here := ScanBand(ready, cursor, band, 0);
    if band == 0 then here
    else
      var rest := Bands(here.ready, here.cursor, band - 1);
      rest.(order := here.order + rest.order)
  }

  /** iouringd_dispatch_ready_requests */
  function Pass(ready: Ready, cursor: nat): Scan
    requires 0 < |ready|
  {
    Bands(ready, cursor, 3)
  }

  // ---- what a scan does ---------------------------------------------------------------

  /** `s.order` are distinct clients that were ready, and exactly they no longer are. */
  ghost predicate Serves(ready: Ready, s: Scan) {
    && |s.ready| == |ready|
    && (forall i | 0 <= i < |s.order| :: s.order[i] < |ready| && ready[s.order[i]].Some?)
    && (forall i, j | 0 <= i < j < |s.order| :: s.order[i] != s.order[j])
    && (forall c | 0 <= c < |ready| :: s.ready[c] == if c in s.order then None else ready[c])
  }

  lemma {:induction false} ScanServes(ready: Ready, cursor: nat, band: nat, offset: nat)
    requires 0 < |ready| && offset <= |ready|
    ensures
      var s := ScanBand(ready, cursor, band, offset);
      Serves(ready, s) && forall i | 0 <= i < |s.order| :: WaitsIn(ready, band, s.order[i])
    decreases |ready| - offset
  {
    if offset < |ready| {
      var c := Around(cursor, offset, |ready|);
      if ready[c] == Some(band) {
        ScanServes(ready[c := None], Around(c, 1, |ready|), band, offset + 1);
        ServesOneMore(ready, c, band, ScanBand(ready[c := None], Around(c, 1, |ready|), band, offset + 1));
      } else {
        ScanServes(ready, cursor, band, offset + 1);
      }
    }
  }

  lemma ServesOneMore(ready: Ready, c: nat, band: nat, rest: Scan)
    requires WaitsIn(ready, band, c) && Serves(ready[c := None], rest)
    requires forall i | 0 <= i < |rest.order| :: WaitsIn(ready[c := None], band, rest.order[i])
    ensures
      var s := rest.(order := [c] + rest.order);
      Serves(ready, s) && forall i | 0 <= i < |s.order| :: WaitsIn(ready, band, s.order[i])
  {
    assert forall i | 0 <= i < |rest.order| :: rest.order[i] != c && ready[rest.order[i]] == Some(band);
  }

  /** Joining two scans, one after the other. */
  lemma JoinServes(ready: Ready, a: Scan, b: Scan)
    requires Serves(ready, a) && Serves(a.ready, b)
    ensures Serves(ready, b.(order := a.order + b.order))
  {
    var s := b.(order := a.order + b.order);
    forall i | 0 <= i < |b.order| ensures b.order[i] !in a.order && ready[b.order[i]].Some? {
      assert a.ready[b.order[i]].Some?;
    }
    forall i, j | 0 <= i < j < |s.order| ensures s.order[i] != s.order[j] {
      if i < |a.order| && j >= |a.order| {
        assert s.order[j] == b.order[j - |a.order|];
        assert s.order[i] in a.order;
      } else if i >= |a.order| {
        assert s.order[i] == b.order[i - |a.order|] && s.order[j] == b.order[j - |a.order|];
      }
    }
  }

  lemma {:induction false} BandsServe(ready: Ready, cursor: nat, band: nat)
    requires 0 < |ready|
    ensures Serves(ready, Bands(ready, cursor, band))
    decreases band
  {
    var here := ScanBand(ready, cursor, band, 0);
    ScanServes(ready, cursor, band, 0);
    if band != 0 {
      BandsServe(here.ready, here.cursor, band - 1);
      JoinServes(ready, here, Bands(here.ready, here.cursor, band - 1));
    }
  }

  /** No client is dispatched twice in a pass, and only clients that were ready are. */
  lemma PassServes(ready: Ready, cursor: nat)
    requires 0 < |ready|
    ensures Serves(ready, Pass(ready, cursor))
  {
    BandsServe(ready, cursor, 3);
  }

  // ---- every band is served -------------------------------------------------------------

  /** Every client is some number of places after the cursor. */
  lemma Reachable(cursor: nat, c: nat, n: nat)
    requires cursor < n && c < n
    ensures Around(cursor, if c >= cursor then c - cursor else c + n - cursor, n) == c
  {
  }

  /** A band with a ready client dispatches first the first one from the cursor on. */
  lemma {:induction false} FirstInBand(ready: Ready, cursor: nat, band: nat, offset: nat, first: nat)
    requires 0 < |ready| && offset <= first < |ready|
    requires WaitsIn(ready, band, Around(cursor, first, |ready|))
    requires forall k | offset <= k < first :: !WaitsIn(ready, band, Around(cursor, k, |ready|))
    ensures var s := ScanBand(ready, cursor, band, offset);
            s.order != [] && s.order[0] == Around(cursor, first, |ready|)
    decreases first - offset
  {
    if offset < first {
      assert !WaitsIn(ready, band, Around(cursor, offset, |ready|));
      FirstInBand(ready, cursor, band, offset + 1, first);
    }
  }

  /** The part of a pass before band `band` is scanned. */
  function Before(ready: Ready, cursor: nat, top: nat, band: nat): (s: Scan)
    requires 0 < |ready| && band <= top
    ensures |s.ready| == |ready| && (cursor < |ready| ==> s.cursor < |ready|)
    decreases top - band
  {
    if top == band then Scan(ready, cursor, [])
    else
      var here := ScanBand(ready, cursor, top, 0);
      var rest := Before(here.ready, here.cursor, top - 1, band);
      rest.(order := here.order + rest.order)
  }

  /** Higher bands leave the clients of band `band` as they were. */
  lemma {:induction false} BandUntouched(ready: Ready, cursor: nat, top: nat, band: nat, c: nat)
    requires 0 < |ready| && band <= top
    ensures var s := Before(ready, cursor, top, band);
            |s.ready| == |ready| && (WaitsIn(s.ready, band, c) <==> WaitsIn(ready, band, c))
    decreases top - band
  {
    if band < top {
      ScanServes(ready, cursor, top, 0);
      var here := ScanBand(ready, cursor, top, 0);
      BandUntouched(here.ready, here.cursor, top - 1, band, c);
    }
  }

  /** A pass is what happens before band `band`, then its scan, then the rest. */
  lemma {:induction false} PassSplits(ready: Ready, cursor: nat, top: nat, band: nat)
    requires 0 < |ready| && band <= top
    ensures
      var before := Before(ready, cursor, top, band);
      && |before.ready| == |ready|
      && before.order + ScanBand(before.ready, before.cursor, band, 0).order <= Bands(ready, cursor, top).order
    decreases top - band
  {
    ScanServes(ready, cursor, top, 0);
    if band < top {
      var here := ScanBand(ready, cursor, top, 0);
      PassSplits(here.ready, here.cursor, top - 1, band);
    }
  }

  /** In every pass each band with a ready client dispatches at least one of them, and first
      the one that comes first in cyclic order from where the cursor is when its turn comes. */
  lemma EveryBandServed(ready: Ready, cursor: nat, band: nat, first: nat)
    requires 0 < |ready| && band <= 3 && first < |ready|
    requires
      var before := Before(ready, cursor, 3, band);
      && WaitsIn(ready, band, Around(before.cursor, first, |ready|))
      && forall k | 0 <= k < first :: !WaitsIn(ready, band, Around(before.cursor, k, |ready|))
    ensures
      var before := Before(ready, cursor, 3, band);
      && |before.order| < |Pass(ready, cursor).order|
      && Pass(ready, cursor).order[|before.order|] == Around(before.cursor, first, |ready|)
  {
    var before := Before(ready, cursor, 3, band);
    PassSplits(ready, cursor, 3, band);
    forall c: nat ensures WaitsIn(before.ready, band, c) <==> WaitsIn(ready, band, c) {
      BandUntouched(ready, cursor, 3, band, c);
    }
    FirstInBand(before.ready, before.cursor, band, 0, first);
  }

  /** A scan serves its own band only. */
  lemma {:induction false} ScanInBand(ready: Ready, cursor: nat, band: nat, offset: nat)
    requires 0 < |ready| && offset <= |ready|
    ensures forall c | c in ScanBand(ready, cursor, band, offset).order :: c < |ready| && ready[c] == Some(band)
    decreases |ready| - offset
  {
    if offset < |ready| {
      var c := Around(cursor, offset, |ready|);
      if ready[c] == Some(band) {
        ScanInBand(ready[c := None], Around(c, 1, |ready|), band, offset + 1);
      } else {
        ScanInBand(ready, cursor, band, offset + 1);
      }
    }
  }

  /** The band client `c` waits in, -1 if none. */
  function BandAt(ready: Ready, c: nat): int {
    if c < |ready| && ready[c].Some? then ready[c].value else -1
  }

  predicate Descends(ready: Ready, order: seq<nat>) {
    forall i, j | 0 <= i < j < |order| :: BandAt(ready, order[i]) >= BandAt(ready, order[j])
  }

  lemma JoinDescends(ready: Ready, a: seq<nat>, b: seq<nat>, band: int)
    requires (forall i | 0 <= i < |a| :: BandAt(ready, a[i]) == band) && (forall i | 0 <= i < |b| :: BandAt(ready, b[i]) <= band)
    requires Descends(ready, b)
    ensures Descends(ready, a + b)
  {
  }

  /** Higher bands are served before lower ones. */
  lemma {:induction false} BandsInOrder(ready: Ready, cursor: nat, top: nat)
    requires 0 < |ready|
    ensures
      var order := Bands(ready, cursor, top).order;
      Descends(ready, order) && forall i | 0 <= i < |order| :: 0 <= BandAt(ready, order[i]) <= top
    decreases top
  {
    hide ScanBand, Descends;
    var here := ScanBand(ready, cursor, top, 0);
    ScanInBand(ready, cursor, top, 0);
    ScanServes(ready, cursor, top, 0);
    forall i | 0 <= i < |here.order| ensures BandAt(ready, here.order[i]) == top {
      assert here.order[i] in here.order;
    }
    var rest := [];
    if top > 0 {
      BandsInOrder(here.ready, here.cursor, top - 1);
      rest := Bands(here.ready, here.cursor, top - 1).order;
      forall i | 0 <= i < |rest| ensures BandAt(ready, rest[i]) == BandAt(here.ready, rest[i]) {
        assert BandAt(here.ready, rest[i]) >= 0;
      }
      SameDescends(here.ready, ready, rest);
    } else {
      NothingDescends(ready);
      assert here.order + rest == here.order;
    }
    JoinDescends(ready, here.order, rest, top);
    var order := Bands(ready, cursor, top).order;
    assert order == here.order + rest;
    forall i | 0 <= i < |order| ensures 0 <= BandAt(ready, order[i]) <= top {
      if i >= |here.order| { assert order[i] == rest[i - |here.order|]; }
    }
  }

  lemma NothingDescends(ready: Ready)
    ensures Descends(ready, [])
  {
  }

  lemma SameDescends(a: Ready, b: Ready, order: seq<nat>)
    requires Descends(a, order) && forall i | 0 <= i < |order| :: BandAt(b, order[i]) == BandAt(a, order[i])
    ensures Descends(b, order)
  {
  }

  /** The band of a request: control requests first, then HIGH, NORMAL and LOW. */
  function BandOf(r: Request, priority: nat): nat {
    if IsControl(r) then 3 else if priority == 2 then 2 else if priority == 0 then 1 else 0
  }

  /** In every pass, if clients wait with these requests, whoever is served earlier has the
      request of the higher band or one of the same. */
  lemma PassInOrder(requests: seq<Option<(Request, nat)>>, cursor: nat)
    requires 0 < |requests|
    ensures
      var order := Pass(Banded(requests), cursor).order;
      forall i, j | 0 <= i < j < |order| ::
        && order[i] < |requests| && order[j] < |requests| && requests[order[i]].Some? && requests[order[j]].Some?
        && var a, b := requests[order[i]].value, requests[order[j]].value;
           && (IsControl(b.0) ==> IsControl(a.0))
           && (!IsControl(a.0) && b.1 == 2 ==> a.1 == 2)
           && (!IsControl(a.0) && a.1 == 1 ==> b.1 == 1 || b.1 > 2)
  {
    hide Bands;
    var ready := Banded(requests);
    BandsInOrder(ready, cursor, 3);
    var order := Pass(ready, cursor).order;
    forall i, j | 0 <= i < j < |order|
      ensures 0 <= BandAt(ready, order[j]) <= BandAt(ready, order[i])
    {
    }
  }

  function Banded(requests: seq<Option<(Request, nat)>>): (r: Ready)
    ensures |r| == |requests|
    ensures forall c | 0 <= c < |r| ::
      r[c] == if requests[c].None? then None else Some(BandOf(requests[c].value.0, requests[c].value.1))
  {
    seq(|requests|, c requires 0 <= c < |requests| =>
      if requests[c].None? then None else Some(BandOf(requests[c].value.0, requests[c].value.1)))
  }

  // ---- and all in bounded time ----------------------------------------------------------------

  function Waiting(ready: Ready): nat {
    if ready == [] then 0 else Waiting(ready[..|ready| - 1]) + (if ready[|ready| - 1].Some? then 1 else 0)
  }

  lemma {:induction false} WaitingNone(ready: Ready)
    ensures Waiting(ready) == 0 <==> forall c | 0 <= c < |ready| :: ready[c].None?
  {
    if ready != [] {
      WaitingNone(ready[..|ready| - 1]);
      assert forall c | 0 <= c < |ready| - 1 :: ready[c] == ready[..|ready| - 1][c];
    }
  }

  /** Fewer clients wait if none came and at least one went. */
  lemma {:induction false} WaitingLess(a: Ready, b: Ready)
    requires |a| == |b| && forall c | 0 <= c < |a| :: b[c] == a[c] || b[c].None?
    ensures Waiting(b) <= Waiting(a)
    ensures (exists c | 0 <= c < |a| :: a[c].Some? && b[c].None?) ==> Waiting(b) < Waiting(a)
  {
    if a != [] {
      var n := |a| - 1;
      assert forall c | 0 <= c < n :: a[..n][c] == a[c] && b[..n][c] == b[c];
      WaitingLess(a[..n], b[..n]);
    }
  }

  /** The least offset from the cursor at which a client of the band waits. */
  lemma FindFirst(ready: Ready, cursor: nat, band: nat, c: nat) returns (first: nat)
    requires 0 < |ready| && cursor < |ready| && WaitsIn(ready, band, c)
    ensures first < |ready| && WaitsIn(ready, band, Around(cursor, first, |ready|))
    ensures forall k | 0 <= k < first :: !WaitsIn(ready, band, Around(cursor, k, |ready|))
  {
    Reachable(cursor, c, |ready|);
    first := 0;
    while !WaitsIn(ready, band, Around(cursor, first, |ready|))
      invariant first <= (if c >= cursor then c - cursor else c + |ready| - cursor)
      invariant forall k | 0 <= k < first :: !WaitsIn(ready, band, Around(cursor, k, |ready|))
      decreases |ready| - first
    {
      first := first + 1;
    }
  }

  /** A pass with anything ready leaves fewer ready. */
  lemma PassProgress(ready: Ready, cursor: nat)
    requires 0 < |ready| && cursor < |ready| && Waiting(ready) > 0
    requires forall c | 0 <= c < |ready| && ready[c].Some? :: ready[c].value <= 3
    ensures Waiting(Pass(ready, cursor).ready) < Waiting(ready)
  {
    WaitingNone(ready);
    var c :| 0 <= c < |ready| && ready[c].Some?;
    var band := ready[c].value;
    var before := Before(ready, cursor, 3, band);
    var first := FindFirst(ready, before.cursor, band, c);
    EveryBandServed(ready, cursor, band, first);
    PassServes(ready, cursor);
    var s := Pass(ready, cursor);
    var served := s.order[|before.order|];
    assert served in s.order && ready[served].Some? && s.ready[served].None?;
    WaitingLess(ready, s.ready);
  }

  /** Passes without new input. */
  function Passes(ready: Ready, cursor: nat, n: nat): (s: Scan)
    requires 0 < |ready|
    ensures |s.ready| == |ready|
    decreases n
  {
    if n == 0 then Scan(ready, cursor, [])
    else
      var first := Pass(ready, cursor);
      Passes(first.ready, first.cursor, n - 1)
  }

  /** Without new input, as many passes as there were ready clients serve them all. */
  lemma {:induction false} AllServed(ready: Ready, cursor: nat, n: nat)
    requires 0 < |ready| && cursor < |ready| && n >= Waiting(ready)
    requires forall c | 0 <= c < |ready| && ready[c].Some? :: ready[c].value <= 3
    ensures forall c | 0 <= c < |ready| :: Passes(ready, cursor, n).ready[c].None?
    decreases n
  {
    WaitingNone(ready);
    if n != 0 {
      var s := Pass(ready, cursor);
      PassServes(ready, cursor);
      if Waiting(ready) > 0 {
        PassProgress(ready, cursor);
      } else {
        WaitingLess(ready, s.ready);
      }
      AllServed(s.ready, s.cursor, n - 1);
    }
  }

  lemma {:induction false} NothingInBand(ready: Ready, cursor: nat, band: nat, offset: nat)
    requires 0 < |ready| && offset <= |ready| && forall c | 0 <= c < |ready| :: ready[c] != Some(band)
    ensures ScanBand(ready, cursor, band, offset) == Scan(ready, cursor, [])
    decreases |ready| - offset
  {
    if offset < |ready| { NothingInBand(ready, cursor, band, offset + 1); }
  }

  lemma SkippingScan()
    ensures ScanBand([Some(1), Some(1), Some(1)], 0, 1, 0) == Scan([None, Some(1), None], 0, [0, 2])
  {
    var ready: Ready := [Some(1), Some(1), Some(1)];
    var one: Ready := [None, Some(1), Some(1)];
    var two: Ready := [None, Some(1), None];
    assert ready[0 := None] == one && one[2 := None] == two;
    assert ScanBand(two, 0, 1, 2) == ScanBand(two, 0, 1, 3) == Scan(two, 0, []);
    assert ScanBand(one, 1, 1, 1) == Scan(two, 0, [2] + []);
    assert [0] + [2] == [0, 2];
  }

  /** A pass may leave a ready client waiting: the cursor moves on while the scan goes on, so
      that offset 1 no longer means client 1. */
  lemma PassCanSkip()
    ensures Pass([Some(1), Some(1), Some(1)], 0) == Scan([None, Some(1), None], 0, [0, 2])
  {
    hide ScanBand;
    var ready: Ready := [Some(1), Some(1), Some(1)];
    var left: Ready := [None, Some(1), None];
    NothingInBand(ready, 0, 3, 0);
    NothingInBand(ready, 0, 2, 0);
    SkippingScan();
    NothingInBand(left, 0, 0, 0);
    assert Bands(left, 0, 0) == Scan(left, 0, []);
    assert Bands(ready, 0, 1) == Scan(left, 0, [0, 2] + []);
    assert Bands(ready, 0, 2) == Scan(left, 0, [] + [0, 2]);
  }

  // ---- the loop itself ----------------------------------------------------------------------

  class Dispatcher {
    var ready: Ready
    var cursor: nat
    ghost var order: seq<nat>  // who has been dispatched

    constructor (n: nat)
      requires n > 0
      ensures |ready| == n && cursor == 0 && order == []
    {
      ready := seq(n, _ => None);
      cursor, order := 0, [];
    }

    /** One band: at every offset the cursor's current place counts. */
    method RunBand(band: nat)
      requires 0 < |ready|
      modifies this
      ensures |ready| == |old(ready)|
      ensures ready == ScanBand(old(ready), old(cursor), band, 0).ready
      ensures cursor == ScanBand(old(ready), old(cursor), band, 0).cursor
      ensures order == old(order) + ScanBand(old(ready), old(cursor), band, 0).order
    {
      var offset := 0;
      ghost var whole := ScanBand(ready, cursor, band, 0);
      while offset < |ready|
        invariant offset <= |ready| == |old(ready)|
        invariant
          var rest := ScanBand(ready, cursor, band, offset);
          rest.ready == whole.ready && rest.cursor == whole.cursor && order + rest.order == old(order) + whole.order
      {
        var index := (cursor + offset) % |ready|;
        if ready[index] == Some(band) {
          ghost var rest := ScanBand(ready[index := None], Around(index, 1, |ready|), band, offset + 1);
          assert order + ([index] + rest.order) == (order + [index]) + rest.order;
          ready := ready[index := None];
          order := order + [index];
          cursor := (index + 1) % |ready|;
        }
        offset := offset + 1;
      }
    }

    /** iouringd_dispatch_ready_requests */
    method Run()
      requires 0 < |ready|
      modifies this
      ensures |ready| == |old(ready)|
      ensures ready == Pass(old(ready), old(cursor)).ready && cursor == Pass(old(ready), old(cursor)).cursor
      ensures order == old(order) + Pass(old(ready), old(cursor)).order
    {
      ghost var whole := Pass(ready, cursor);
      var band := 3;
      while band >= 0
        invariant -1 <= band <= 3 && |ready| == |old(ready)|
        invariant band >= 0 ==>
          var rest := Bands(ready, cursor, band);
          rest.ready == whole.ready && rest.cursor == whole.cursor && order + rest.order == old(order) + whole.order
        invariant band < 0 ==>
          ready == whole.ready && cursor == whole.cursor && order == old(order) + whole.order
      {
        RunBand(band);
        band := band - 1;
      }
    }
  }
}
