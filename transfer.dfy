/** The transfer store of transfer.go: the `Manager` that owns every
    `Transfer` record, keeps their insertion order and counts them by status,
    with the record's elapsed time and the byte-scale choice of
    `FormattedBytes`. Each method is one critical section of the original's
    read/write lock, so the class is modelled as sequential. */
module Transfers {
  import opened Wrappers
  import Errors

  /** Go's int64. */
  type Int64 = x: int | -0x8000_0000_0000_0000 <= x < 0x8000_0000_0000_0000

  /** Status (transfer.go:11-19). */
  datatype Status = Pending | InProgress | Completed | Failed

  /** A reading of the clock that the original takes from time.Now. */
  type Time = int

  /** Transfer (transfer.go:22-33). Go's zero time.Time is `None`, and so is
      a nil error. */
  datatype Transfer = Transfer(
    id: string,
    source: string,
    destination: string,
    status: Status,
    progress: real,
    bytesTotal: int,
    bytesCopied: int,
    startTime: Option<Time>,
    endTime: Option<Time>,
    error: Option<Errors.Error>)

  /** The record `Add` creates: pending, no progress, nothing copied,
      no times and no error. */
  function NewTransfer(id: string, source: string, destination: string): Transfer {
    Transfer(id, source, destination, Pending, 0.0, 0, 0, None, None, None)
  }

  /** Transfer.Duration (transfer.go:159-167): zero until started, the time
      since the start while running, the end minus the start once ended. It
      is never negative while the start is not after the end (or, while
      running, after `now`); a restart after Complete or Fail breaks that,
      see `RestartKeepsEnd`. */
  function Duration(t: Transfer, now: Time): (d: int)
    ensures t.startTime.None? ==> d == 0
    ensures t.startTime.Some? && t.endTime.None? ==> d == now - t.startTime.value
    ensures t.startTime.Some? && t.endTime.Some? ==> d == t.endTime.value - t.startTime.value
    ensures (t.startTime.Some? ==> t.startTime.value <= (if t.endTime.Some? then t.endTime.value else now)) ==> d >= 0
  {
    match t.startTime
    case None => 0
    case Some(start) =>
      match t.endTime
      case None => now - start
      case Some(end) => end - start
  }

  /** The effect of UpdateProgress on the table: only the named record's
      progress and byte counts change, and nothing happens to an unknown id. */
  function Progressed(m: map<string, Transfer>, id: string, progress: real, copied: int, total: int)
    : (r: map<string, Transfer>)
    ensures r.Keys == m.Keys
    ensures forall k :: k in m && k != id ==> r[k] == m[k]
    ensures id in m ==> r[id] == m[id].(progress := progress, bytesCopied := copied, bytesTotal := total)
    ensures id !in m ==> r == m
  {
    if id in m then m[id := m[id].(progress := progress, bytesCopied := copied, bytesTotal := total)] else m
  }

  /** The records of `order` that are present in `m`, in `order`'s sequence
      (an id listed twice is listed twice). */
  function InOrder(order: seq<string>, m: map<string, Transfer>): (r: seq<Transfer>)
    ensures |r| <= |order|
  {
    if order == [] then []
    else
      var last := order[|order| - 1];
      InOrder(order[..|order| - 1], m) + (if last in m then [m[last]] else [])
  }

  /** The ids in `m` whose record has status `s`. */
  function WithStatus(m: map<string, Transfer>, s: Status): set<string> {
    set id | id in m && m[id].status == s
  }

  class Manager {
    var transfers: map<string, Transfer>
    var order: seq<string>

    /** Every stored id is listed in `order`, every listed id is stored, and
        every record is filed under its own id. */
    ghost predicate Valid()
      reads this
    {
      && (forall id :: id in transfers ==> id in order)
      && (forall i :: 0 <= i < |order| ==> order[i] in transfers)
      && (forall id :: id in transfers ==> transfers[id].id == id)
    }

    /** NewManager (transfer.go:43-48). */
    constructor ()
      ensures transfers == map[] && order == []
      ensures Valid()
    {
      transfers := map[];
      order := [];
    }

    /** Add (transfer.go:51-66): stores a fresh pending record under `id`,
        replacing any earlier one, and appends `id` to the order even when it
        is already there. */
    method Add(id: string, source: string, destination: string) returns (t: Transfer)
      modifies this
      ensures t == NewTransfer(id, source, destination)
      ensures transfers == old(transfers)[id := t]
      ensures order == old(order) + [id]
      ensures old(Valid()) ==> Valid()
    {
      t := NewTransfer(id, source, destination);
      transfers := transfers[id := t];
      order := order + [id];
    }

    /** Start (transfer.go:69-77): whatever the current status, the record
        becomes InProgress with the given start time; unknown ids are ignored. */
    method Start(id: string, now: Time)
      modifies this`transfers
      ensures id in old(transfers) ==>
                transfers == old(transfers)[id := old(transfers)[id].(status := InProgress, startTime := Some(now))]
      ensures id !in old(transfers) ==> transfers == old(transfers)
      ensures old(Valid()) ==> Valid()
    {
      if id in transfers {
        var t := transfers[id];
        transfers := transfers[id := t.(status := InProgress, startTime := Some(now))];
      }
    }

    /** UpdateProgress (transfer.go:80-89): applies to any status. */
    method UpdateProgress(id: string, progress: real, bytesCopied: int, bytesTotal: int)
      modifies this`transfers
      ensures transfers == Progressed(old(transfers), id, progress, bytesCopied, bytesTotal)
      ensures old(Valid()) ==> Valid()
    {
      if id in transfers {
        var t := transfers[id];
        transfers := transfers[id := t.(progress := progress, bytesCopied := bytesCopied, bytesTotal := bytesTotal)];
      }
    }

    /** Complete (transfer.go:92-101): Completed, progress forced to 100 and
        the end time recorded; the start time is left as it was. */
    method Complete(id: string, now: Time)
      modifies this`transfers
      ensures id in old(transfers) ==>
                transfers == old(transfers)[id := old(transfers)[id].(status := Completed, progress := 100.0, endTime := Some(now))]
      ensures id !in old(transfers) ==> transfers == old(transfers)
      ensures old(Valid()) ==> Valid()
    {
      if id in transfers {
        var t := transfers[id];
        transfers := transfers[id := t.(status := Completed, progress := 100.0, endTime := Some(now))];
      }
    }

    /** Fail (transfer.go:104-113): Failed, the end time and the error (which
        may be nil) recorded; progress is left as it was. */
    method Fail(id: string, err: Option<Errors.Error>, now: Time)
      modifies this`transfers
      ensures id in old(transfers) ==>
                transfers == old(transfers)[id := old(transfers)[id].(status := Failed, endTime := Some(now), error := err)]
      ensures id !in old(transfers) ==> transfers == old(transfers)
      ensures old(Valid()) ==> Valid()
    {
      if id in transfers {
        var t := transfers[id];
        transfers := transfers[id := t.(status := Failed, endTime := Some(now), error := err)];
      }
    }

    /** Get (transfer.go:116-122): the record under `id`; `None` plays the
        part of a nil *Transfer with found = false. */
    method Get(id: string) returns (t: Option<Transfer>)
      ensures t.Some? <==> id in transfers
      ensures t.Some? ==> t.value == transfers[id]
    {
      if id in transfers {
        t := Some(transfers[id]);
      } else {
        t := None;
      }
    }

    /** GetAll (transfer.go:125-136): the records in insertion order,
        skipping ids that are not stored. */
    method GetAll() returns (result: seq<Transfer>)
      ensures result == InOrder(order, transfers)
      ensures Valid() ==> |result| == |order| && forall i :: 0 <= i < |order| ==> result[i] == transfers[order[i]]
    {
      result := [];
      var i := 0;
      while i < |order|
        invariant 0 <= i <= |order|
        invariant result == InOrder(order[..i], transfers)
      {
        var id := order[i];
        assert order[..i + 1][..i] == order[..i];
        if id in transfers {
          result := result + [transfers[id]];
        }
        i := i + 1;
      }
      assert order[..i] == order;
      if Valid() {
        InOrderComplete(order, transfers);
      }
    }

    /** Stats (transfer.go:139-156): how many records have each status; the
        four counts add up to the number of records. */
    method Stats() returns (pending: nat, inProgress: nat, completed: nat, failed: nat)
      ensures pending == |WithStatus(transfers, Pending)|
      ensures inProgress == |WithStatus(transfers, InProgress)|
      ensures completed == |WithStatus(transfers, Completed)|
      ensures failed == |WithStatus(transfers, Failed)|
      ensures pending + inProgress + completed + failed == |transfers|
    {
      pending, inProgress, completed, failed := 0, 0, 0, 0;
      var m := transfers;
      var rest := m.Keys;
      ghost var seen: set<string> := {};
      while rest != {}
        invariant rest !! seen && rest + seen == m.Keys
        invariant (pending, inProgress, completed, failed) == Tally(m, seen)
        decreases rest
      {
        var id :| id in rest;
        CountedStep(m, seen, id);
        match m[id].status {
          case Pending => pending := pending + 1;
          case InProgress => inProgress := inProgress + 1;
          case Completed => completed := completed + 1;
          case Failed => failed := failed + 1;
        }
        rest := rest - {id};
        seen := seen + {id};
      }
      CountedAll(m, seen);
      TallySum(m, seen);
    }
  }

  /** The ids among `ids` whose record in `m` has status `s`. */
  ghost function Counted(m: map<string, Transfer>, ids: set<string>, s: Status): set<string> {
    set id | id in ids && id in m && m[id].status == s
  }

  /** The four counts over `ids`, in the order Stats returns them. */
  ghost function Tally(m: map<string, Transfer>, ids: set<string>): (nat, nat, nat, nat) {
    (|Counted(m, ids, Pending)|, |Counted(m, ids, InProgress)|,
     |Counted(m, ids, Completed)|, |Counted(m, ids, Failed)|)
  }

  /** `counts` with one added to the entry of status `s`. */
  function Bump(counts: (nat, nat, nat, nat), s: Status): (nat, nat, nat, nat) {
    match s
    case Pending => (counts.0 + 1, counts.1, counts.2, counts.3)
    case InProgress => (counts.0, counts.1 + 1, counts.2, counts.3)
    case Completed => (counts.0, counts.1, counts.2 + 1, counts.3)
    case Failed => (counts.0, counts.1, counts.2, counts.3 + 1)
  }

  /** Visiting one more stored id adds one to the count of its own status
      and nothing to the others. */
  lemma CountedStep(m: map<string, Transfer>, seen: set<string>, id: string)
    requires id in m && id !in seen
    ensures Tally(m, seen + {id}) == Bump(Tally(m, seen), m[id].status)
    ensures |seen + {id}| == |seen| + 1
  {
    var s := m[id].status;
    assert Counted(m, seen + {id}, s) == Counted(m, seen, s) + {id};
    forall t: Status | t != s
      ensures Counted(m, seen + {id}, t) == Counted(m, seen, t)
    {
    }
  }

  /** Every stored id has exactly one status, so the four counts over any
      set of stored ids add up to its size. */
  lemma {:induction false} TallySum(m: map<string, Transfer>, ids: set<string>)
    requires ids <= m.Keys
    ensures var t := Tally(m, ids); t.0 + t.1 + t.2 + t.3 == |ids|
    decreases |ids|
  {
    if ids != {} {
      var id :| id in ids;
      var rest := ids - {id};
      TallySum(m, rest);
      CountedStep(m, rest, id);
      assert rest + {id} == ids;
    }
  }

  /** Once every id has been visited, the counts are those of the table. */
  lemma CountedAll(m: map<string, Transfer>, seen: set<string>)
    requires seen == m.Keys
    ensures forall s: Status :: Counted(m, seen, s) == WithStatus(m, s)
  {
  }

  // -------------------------------------------------------------------------
  // Properties of the order-keeping table
  // -------------------------------------------------------------------------

  /** A record whose id is listed and stored is among those GetAll yields. */
  lemma {:induction false} InOrderHas(order: seq<string>, m: map<string, Transfer>, i: nat)
    requires i < |order| && order[i] in m
    ensures m[order[i]] in InOrder(order, m)
  {
    var last := |order| - 1;
    if i < last {
      InOrderHas(order[..last], m, i);
    }
  }

  /** When every listed id is stored (as `Valid` guarantees), GetAll yields
      one record per entry of `order`, position for position. */
  lemma {:induction false} InOrderComplete(order: seq<string>, m: map<string, Transfer>)
    requires forall i :: 0 <= i < |order| ==> order[i] in m
    ensures |InOrder(order, m)| == |order|
    ensures forall i :: 0 <= i < |order| ==> InOrder(order, m)[i] == m[order[i]]
  {
    if order != [] {
      InOrderComplete(order[..|order| - 1], m);
    }
  }

  /** Re-adding an id that is already listed makes GetAll return the new
      record twice: once for the old entry in `order`, once for the new one. */
  lemma ReAddListsTwice(order: seq<string>, m: map<string, Transfer>, id: string, t: Transfer)
    requires id in order
    ensures var all := InOrder(order + [id], m[id := t]);
            multiset(all)[t] >= 2
  {
    var m' := m[id := t];
    var i :| 0 <= i < |order| && order[i] == id;
    InOrderHas(order, m', i);
    var o := order + [id];
    assert o[..|o| - 1] == order;
    assert InOrder(o, m') == InOrder(order, m') + [t];
  }

  // -------------------------------------------------------------------------
  // FormattedBytes (transfer.go:170-181)
  // -------------------------------------------------------------------------

  /** The scale FormattedBytes renders a size with: the byte count itself
      ("%d B"), or the size divided by `div` with the unit letter
      `Prefix(exp)` ("%.1f %cB"). */
  datatype ByteScale = Exact(bytes: int) | Scaled(bytes: int, div: int, exp: nat)

  function Pow1024(k: nat): (p: nat)
    ensures p >= 1
  {
    if k == 0 then 1 else 1024 * Pow1024(k - 1)
  }

  /** The unit letters, in the order of `exp`. */
  const Prefixes: string := "KMGTPE"

  /** FormattedBytes' choice of scale: sizes under 1024 bytes are shown
      exactly; larger ones with the largest power of 1024 not above them,
      whose unit letter is one of "KMGTPE". */
  method FormattedBytes(bytes: Int64) returns (f: ByteScale)
    ensures bytes < 1024 ==> f == Exact(bytes)
    ensures bytes >= 1024 ==>
              && f.Scaled? && f.bytes == bytes
              && f.exp < |Prefixes|
              && f.div == Pow1024(f.exp + 1)
              && f.div <= bytes < 1024 * f.div
  {
    if bytes < 1024 {
      return Exact(bytes);
    }
    var div, exp := 1024, 0;
    var n := bytes / 1024;
    while n >= 1024
      invariant exp <= 5
      invariant div == Pow1024(exp + 1)
      invariant 1 <= n
      invariant div * n <= bytes < div * (n + 1)
    {
      ScaleStep(bytes, div, n);
      ScaleBound(bytes, div, exp);
      div := div * 1024;
      exp := exp + 1;
      n := n / 1024;
    }
    ScaleFinal(bytes, div, n);
    f := Scaled(bytes, div, exp);
  }

  /** The loop cannot pass "E": 1024^7 bytes exceed every int64. */
  lemma ScaleBound(bytes: Int64, div: nat, exp: nat)
    requires div == Pow1024(exp + 1) && div * 1024 <= bytes
    ensures exp < 5
  {
    if exp >= 5 {
      Pow1024Grows(6, exp + 1);
    }
  }

  lemma {:induction false} Pow1024Grows(j: nat, k: nat)
    requires j <= k
    ensures Pow1024(j) <= Pow1024(k)
    decreases k
  {
    if j < k {
      Pow1024Grows(j, k - 1);
    }
  }

  /** When the loop stops, `div <= bytes < 1024 * div`. */
  lemma ScaleFinal(bytes: int, div: nat, n: nat)
    requires 1 <= n < 1024 && div * n <= bytes < div * (n + 1)
    ensures div <= bytes < 1024 * div
  {
    assert div <= div * n;
    assert div * (n + 1) <= div * 1024;
  }

  /** One turn of the FormattedBytes loop keeps `div * n <= bytes <
      div * (n + 1)` when `div` grows by 1024 and `n` shrinks by 1024. */
  lemma ScaleStep(bytes: int, div: nat, n: nat)
    requires div >= 1 && n >= 1024
    requires div * n <= bytes < div * (n + 1)
    ensures div * 1024 * (n / 1024) <= bytes < div * 1024 * (n / 1024 + 1)
    ensures div * 1024 <= bytes
  {
    var q := n / 1024;
    assert 1024 * q <= n && n + 1 <= 1024 * (q + 1);
    MulMono(div, 1024 * q, n);
    MulMono(div, n + 1, 1024 * (q + 1));
    MulAssoc(div, 1024, q);
    MulAssoc(div, 1024, q + 1);
    MulMono(div * 1024, 1, q);
  }

  lemma MulMono(a: int, b: int, c: int)
    requires a >= 0 && b <= c
    ensures a * b <= a * c
  {
    assert a * c - a * b == a * (c - b);
  }

  lemma MulAssoc(a: int, b: int, c: int)
    ensures a * (b * c) == a * b * c
  {
  }

  // -------------------------------------------------------------------------
  // Lifecycles the original allows
  // -------------------------------------------------------------------------

  /** An illustration on one concrete store of what Start's and Complete's
      contracts already say for every record: no transition checks the
      current status, so a completed transfer that is started again is back
      in progress (transfer.go:69-77, 92-101). */
  method RestartAfterComplete() returns (s: Status, progress: real, d: int)
    ensures s == InProgress && progress == 100.0
    ensures d == -10 < 0
  {
    var m := new Manager();
    var _ := m.Add("t1", "src", "dst");
    m.Complete("t1", 10);
    m.Start("t1", 20);
    var t := m.Get("t1");
    s, progress, d := t.value.status, t.value.progress, Duration(t.value, 30);
  }

  /** Start (transfer.go:69-77) sets the start time but keeps the end time a
      Complete or Fail recorded, so restarting an ended record after its end
      makes its duration negative, on any clock, until it ends again. */
  lemma RestartKeepsEnd(t: Transfer, restarted: Time, now: Time)
    requires t.endTime.Some? && t.endTime.value < restarted
    ensures var r := t.(status := InProgress, startTime := Some(restarted));
            Duration(r, now) == t.endTime.value - restarted < 0
  {
  }

  /** An illustration on one concrete store: completing without starting
      leaves no start time, so the duration is zero at any later time, as
      Complete's and Duration's contracts say for every record. */
  method CompleteWithoutStart(now: Time) returns (s: Status, d: int)
    ensures s == Completed && d == 0
  {
    var m := new Manager();
    var _ := m.Add("t1", "src", "dst");
    m.Complete("t1", now);
    var t := m.Get("t1");
    s, d := t.value.status, Duration(t.value, now + 1);
  }
}
