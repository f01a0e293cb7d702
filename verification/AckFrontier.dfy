/** Per-device acknowledgement cursors and the compaction floor. */
module AckFrontiers {
  import opened Bytes

  type DeviceLabel = nat
  datatype Observation = Observation(device: DeviceLabel, sequence: u64)

  type Cursors = map<DeviceLabel, u64>

  function Observed(c: Cursors, o: Observation): Cursors {
    var current := if o.device in c then c[o.device] else 0;
    c[o.device := if o.sequence > current then o.sequence else current]
  }

  function ObservedAll(c: Cursors, list: seq<Observation>): Cursors {
    if list == [] then c
    else Observed(ObservedAll(c, list[..|list| - 1]), list[|list| - 1])
  }

  class AckFrontier {
    var cursors: Cursors

    constructor ()
      ensures cursors == map[]
    {
      cursors := map[];
    }

    method Observe(device: DeviceLabel, sequence: u64)
      modifies this
      ensures cursors == Observed(old(cursors), Observation(device, sequence))
    {
      if device !in cursors {
        cursors := cursors[device := 0];
      }
      if sequence > cursors[device] {
        cursors := cursors[device := sequence];
      }
    }

    /** The smallest cursor, or none. */
    method CompactionFloor() returns (floor: Option<u64>)
      ensures floor.None? <==> cursors == map[]
      ensures floor.Some? ==> (exists d :: d in cursors && cursors[d] == floor.value)
      ensures floor.Some? ==> forall d :: d in cursors ==> floor.value <= cursors[d]
    {
      floor := None;
      var left := cursors.Keys;
      while left != {}
        invariant left <= cursors.Keys
        invariant floor.None? <==> left == cursors.Keys
        invariant floor.Some? ==> (exists d :: d in cursors && cursors[d] == floor.value)
        invariant floor.Some? ==> forall d :: d in cursors && d !in left ==> floor.value <= cursors[d]
        decreases left
      {
        var d :| d in left;
        left := left - {d};
        if floor.None? || cursors[d] < floor.value {
          floor := Some(cursors[d]);
        }
      }
      if floor.None? {
        assert cursors.Keys == {};
      }
    }
  }

  // ---- the reference: the maximum observed per device ----

  predicate Mentions(list: seq<Observation>, device: DeviceLabel) {
    exists i | 0 <= i < |list| :: list[i].device == device
  }

  /** `n` is the largest sequence observed for the device. */
  predicate IsMax(list: seq<Observation>, device: DeviceLabel, n: nat) {
    && (exists i | 0 <= i < |list| :: list[i].device == device && list[i].sequence == n)
    && (forall i | 0 <= i < |list| :: list[i].device == device ==> list[i].sequence <= n)
  }

  ghost predicate IsFrontierOf(c: Cursors, list: seq<Observation>) {
    && (forall d :: d in c <==> Mentions(list, d))
    && (forall d | d in c :: IsMax(list, d, c[d]))
  }

  lemma MentionsAppend(list: seq<Observation>, o: Observation, d: DeviceLabel)
    ensures Mentions(list + [o], d) <==> Mentions(list, d) || d == o.device
  {
    var longer := list + [o];
    if Mentions(list, d) {
      var i :| 0 <= i < |list| && list[i].device == d;
      assert longer[i].device == d;
    }
    assert longer[|list|] == o;
  }

  lemma MaxAppend(list: seq<Observation>, o: Observation, d: DeviceLabel, n: nat)
    requires IsMax(list, d, n)
    ensures IsMax(list + [o], d, if d == o.device && o.sequence > n then o.sequence else n)
  {
    var longer := list + [o];
    var i :| 0 <= i < |list| && list[i].device == d && list[i].sequence == n;
    assert longer[i] == list[i] && longer[|list|] == o;
  }

  lemma FirstMax(list: seq<Observation>, o: Observation)
    requires !Mentions(list, o.device)
    ensures IsMax(list + [o], o.device, o.sequence)
  {
    assert (list + [o])[|list|] == o;
  }

  lemma FrontierAppend(c: Cursors, list: seq<Observation>, o: Observation)
    requires IsFrontierOf(c, list)
    ensures IsFrontierOf(Observed(c, o), list + [o])
  {
    hide Mentions, IsMax;
    var (c', longer) := (Observed(c, o), list + [o]);
    forall d ensures d in c' <==> Mentions(longer, d) {
      MentionsAppend(list, o, d);
    }
    forall d | d in c' ensures IsMax(longer, d, c'[d]) {
      if d in c {
        MaxAppend(list, o, d, c[d]);
      } else {
        FirstMax(list, o);
      }
    }
  }

  /** After any list of observations each cursor is the maximum observed for its device. */
  lemma {:induction false} CursorsAreMaxima(list: seq<Observation>)
    ensures IsFrontierOf(ObservedAll(map[], list), list)
  {
    if list != [] {
      hide IsFrontierOf;
      var front, o := list[..|list| - 1], list[|list| - 1];
      CursorsAreMaxima(front);
      FrontierAppend(ObservedAll(map[], front), front, o);
      assert list == front + [o];
    }
  }

  /** Order and repetition do not matter: lists with the same observations give the same cursors. */
  lemma OrderDoesNotMatter(a: seq<Observation>, b: seq<Observation>)
    requires forall o :: o in a <==> o in b
    ensures ObservedAll(map[], a) == ObservedAll(map[], b)
  {
    CursorsAreMaxima(a);
    CursorsAreMaxima(b);
    var c, c' := ObservedAll(map[], a), ObservedAll(map[], b);
    hide ObservedAll;
    forall d ensures d in c <==> d in c' {
      SameMentions(a, b, d);
    }
    forall d | d in c ensures c[d] == c'[d] {
      SameMax(a, b, d, c[d], c'[d]);
    }
  }

  lemma SameMentions(a: seq<Observation>, b: seq<Observation>, d: DeviceLabel)
    requires forall o :: o in a <==> o in b
    ensures Mentions(a, d) <==> Mentions(b, d)
  {
    if Mentions(a, d) {
      var i :| 0 <= i < |a| && a[i].device == d;
      assert a[i] in b;
    }
    if Mentions(b, d) {
      var i :| 0 <= i < |b| && b[i].device == d;
      assert b[i] in a;
    }
  }

  lemma SameMax(a: seq<Observation>, b: seq<Observation>, d: DeviceLabel, m: nat, n: nat)
    requires forall o :: o in a <==> o in b
    requires IsMax(a, d, m) && IsMax(b, d, n)
    ensures m == n
  {
    var i :| 0 <= i < |a| && a[i].device == d && a[i].sequence == m;
    assert a[i] in b;
    var j :| 0 <= j < |b| && b[j].device == d && b[j].sequence == n;
    assert b[j] in a;
  }

  predicate IsFloor(c: Cursors, floor: nat) {
    (exists d :: d in c && c[d] == floor) && forall d :: d in c ==> floor <= c[d]
  }

  /** Observing a device that is already recorded never lowers the floor. */
  lemma KnownDeviceNeverLowersFloor(c: Cursors, o: Observation, before: nat, after: nat)
    requires o.device in c && IsFloor(c, before) && IsFloor(Observed(c, o), after)
    ensures before <= after
  {
    var d :| d in Observed(c, o) && Observed(c, o)[d] == after;
    assert before <= c[d];
  }

  /** A first observation lowers the floor exactly when it lies below it. */
  lemma NewDeviceLowersFloorIff(c: Cursors, o: Observation, before: nat, after: nat)
    requires o.device !in c && IsFloor(c, before) && IsFloor(Observed(c, o), after)
    ensures after < before <==> o.sequence < before
  {
    var d :| d in c && c[d] == before;
    assert Observed(c, o)[d] == before && Observed(c, o)[o.device] == o.sequence;
  }

  // ---- a roster of devices ----

  /** What each device has durably applied, as far as the observations tell. */
  ghost predicate Explains(applied: DeviceLabel -> nat, list: seq<Observation>) {
    forall i | 0 <= i < |list| :: list[i].sequence <= applied(list[i].device)
  }

  /** Whatever the devices applied beyond their acknowledgements, each device of the roster is at the floor or above. */
  ghost predicate Bounds(floor: nat, list: seq<Observation>, roster: set<DeviceLabel>) {
    forall applied: DeviceLabel -> nat, d | Explains(applied, list) && d in roster :: floor <= applied(d)
  }

  /** Every device applied what its cursor says and nothing more; a device without a cursor applied nothing. */
  function AsRecorded(c: Cursors): DeviceLabel -> nat { d => if d in c then c[d] else 0 }

  lemma RecordedExplains(list: seq<Observation>)
    ensures Explains(AsRecorded(ObservedAll(map[], list)), list)
  {
    var c := ObservedAll(map[], list);
    CursorsAreMaxima(list);
    hide ObservedAll;
    forall i | 0 <= i < |list| ensures list[i].sequence <= AsRecorded(c)(list[i].device) {
      assert Mentions(list, list[i].device);
    }
  }

  lemma CursorIsApplied(list: seq<Observation>, applied: DeviceLabel -> nat, d: DeviceLabel)
    requires Explains(applied, list) && d in ObservedAll(map[], list)
    ensures ObservedAll(map[], list)[d] <= applied(d)
  {
    CursorsAreMaxima(list);
    hide ObservedAll;
    var c := ObservedAll(map[], list);
    assert IsMax(list, d, c[d]);
    var i :| 0 <= i < |list| && list[i].device == d && list[i].sequence == c[d];
  }

  /** A floor above 0 bounds what a roster of devices applied exactly when every one of them has a cursor. */
  lemma FloorBoundsRosterIff(list: seq<Observation>, roster: set<DeviceLabel>, floor: nat)
    requires IsFloor(ObservedAll(map[], list), floor)
    ensures Bounds(floor, list, roster) <==> floor == 0 || forall d :: d in roster ==> d in ObservedAll(map[], list)
  {
    var c := ObservedAll(map[], list);
    hide ObservedAll, Explains;
    if floor == 0 || forall d :: d in roster ==> d in c {
      forall applied: DeviceLabel -> nat, d | Explains(applied, list) && d in roster ensures floor <= applied(d) {
        if floor > 0 {
          CursorIsApplied(list, applied, d);
        }
      }
    } else {
      var d :| d in roster && d !in c;
      RecordedExplains(list);
      assert AsRecorded(c)(d) == 0;
    }
  }

  /** One device at 5 and another that never reported: the floor is 5 all the same. */
  lemma SilentDeviceExample()
    ensures var list := [Observation(1, 5)];
            IsFloor(ObservedAll(map[], list), 5) && !Bounds(5, list, {1, 2})
  {
    var list := [Observation(1, 5)];
    assert list[..0] == [];
    var c := ObservedAll(map[], list);
    assert c == map[1 := 5];
    assert c[1] == 5;
    FloorBoundsRosterIff(list, {1, 2}, 5);
  }
}
