/** Single bits of a 64-bit machine word under the three word operations the window uses. */
module Words {

  /** `word << amount`; the amount is below 64 by its type. */
  function ShiftLeft(word: bv64, amount: bv6): bv64 { word << amount }

  /** `word | (1 << place)` */
  function WithBit(word: bv64, place: bv6): bv64 { word | (1 << place) }

  /** `word | 1` */
  function WithLowBit(word: bv64): bv64 { word | 1 }

  /** `word & (1 << place) == 0` */
  predicate Clear(word: bv64, place: bv6) { word & (1 << place) == 0 }

  /** Bit `i` as a word: 0 or 1. */
  function At(word: bv64, i: bv6): bv64 { (word >> i) & 1 }

  // The facts below are first stated on bare words and then lifted to the named operations.

  lemma RawShift(word: bv64, d: bv6, i: bv6)
    ensures ((word << d) >> i) & 1 == if d <= i then (word >> (i - d)) & 1 else 0
  {
  }

  lemma RawSet(word: bv64, d: bv6, i: bv6)
    ensures ((word | (1 << d)) >> i) & 1 == if i == d then 1 else (word >> i) & 1
  {
  }

  lemma RawSetLow(word: bv64, i: bv6)
    ensures ((word | 1) >> i) & 1 == if i == 0 then 1 else (word >> i) & 1
  {
  }

  lemma RawClear(word: bv64, i: bv6)
    requires word & (1 << i) == 0
    ensures (word >> i) & 1 == 0
  {
  }

  lemma RawUnset(word: bv64, i: bv6)
    requires (word >> i) & 1 == 0
    ensures word & (1 << i) == 0
  {
  }

  lemma AtMeans(word: bv64, i: bv6)
    ensures At(word, i) == (word >> i) & 1
  {
  }

  lemma ShiftMeans(word: bv64, d: bv6, i: bv6)
    ensures At(ShiftLeft(word, d), i) == ((word << d) >> i) & 1
  {
  }

  lemma SetMeans(word: bv64, d: bv6, i: bv6)
    ensures At(WithBit(word, d), i) == ((word | (1 << d)) >> i) & 1
  {
  }

  lemma SetLowMeans(word: bv64, i: bv6)
    ensures At(WithLowBit(word), i) == ((word | 1) >> i) & 1
  {
  }

  /** Shifting moves bit `i - d` to place `i` and clears the places below `d`. */
  lemma AtShift(word: bv64, d: bv6, i: bv6)
    ensures At(ShiftLeft(word, d), i) == if d <= i then At(word, i - d) else 0
  {
    hide At, ShiftLeft;
    ShiftMeans(word, d, i);
    AtMeans(word, i - d);
    RawShift(word, d, i);
  }

  lemma AtSet(word: bv64, d: bv6, i: bv6)
    ensures At(WithBit(word, d), i) == if i == d then 1 else At(word, i)
  {
    hide At, WithBit;
    SetMeans(word, d, i);
    AtMeans(word, i);
    RawSet(word, d, i);
  }

  lemma AtSetLow(word: bv64, i: bv6)
    ensures At(WithLowBit(word), i) == if i == 0 then 1 else At(word, i)
  {
    hide At, WithLowBit;
    SetLowMeans(word, i);
    AtMeans(word, i);
    RawSetLow(word, i);
  }

  lemma AtClear(word: bv64, i: bv6)
    ensures Clear(word, i) <==> At(word, i) == 0
  {
    hide At;
    AtMeans(word, i);
    if Clear(word, i) {
      RawClear(word, i);
    } else if At(word, i) == 0 {
      RawUnset(word, i);
    }
  }

  lemma AtZero(i: bv6)
    ensures At(0, i) == 0
  {
  }
}

/** The 64-wide sliding replay window of one receiving session, kept in two machine words. */
module ReplayWindows {
  import opened Bytes
  import opened Words

  const WIDTH: nat := 64

  /** A shift amount below 64 as a machine word. */
  function Amount(n: nat): (w: bv6)
    requires n < WIDTH
  {
    if n == 0 then 0 else Amount(n - 1) + 1
  }

  lemma {:induction false} AmountDifference(d: nat, i: nat)
    requires d <= i < WIDTH
    ensures Amount(i) - Amount(d) == Amount(i - d)
  {
    if d > 0 {
      AmountDifference(d - 1, i - 1);
    }
  }

  lemma {:induction false} AmountValue(n: nat)
    requires n < WIDTH
    ensures Amount(n) as nat == n
  {
    if n > 0 {
      AmountValue(n - 1);
    }
  }

  lemma AmountOrder(d: nat, i: nat)
    requires d < WIDTH && i < WIDTH
    ensures Amount(d) <= Amount(i) <==> d <= i
    ensures Amount(d) == Amount(i) <==> d == i
  {
    hide Amount;
    AmountValue(d);
    AmountValue(i);
  }

  predicate Bit(word: bv64, i: nat)
    requires i < WIDTH
  {
    At(word, Amount(i)) != 0
  }

  lemma ShiftedBit(word: bv64, d: nat, i: nat)
    requires d < WIDTH && i < WIDTH
    ensures Bit(ShiftLeft(word, Amount(d)), i) <==> d <= i && Bit(word, i - d)
  {
    hide At, ShiftLeft;
    AtShift(word, Amount(d), Amount(i));
    AmountOrder(d, i);
    if d <= i {
      AmountDifference(d, i);
    }
  }

  lemma SetBit(word: bv64, d: nat, i: nat)
    requires d < WIDTH && i < WIDTH
    ensures Bit(WithBit(word, Amount(d)), i) <==> i == d || Bit(word, i)
  {
    hide At, WithBit;
    AtSet(word, Amount(d), Amount(i));
    AmountOrder(d, i);
  }

  lemma SetLowBit(word: bv64, i: nat)
    requires i < WIDTH
    ensures Bit(WithLowBit(word), i) <==> i == 0 || Bit(word, i)
  {
    hide At, WithLowBit;
    AtSetLow(word, Amount(i));
    AmountOrder(0, i);
  }

  lemma ClearBit(word: bv64, i: nat)
    requires i < WIDTH
    ensures Clear(word, Amount(i)) <==> !Bit(word, i)
  {
    hide At, Clear;
    AtClear(word, Amount(i));
  }

  lemma NoBits(i: nat)
    requires i < WIDTH
    ensures !Bit(0, i)
  {
    hide At;
    AtZero(Amount(i));
  }

  // ---- the window as a value ----

  datatype Window = Window(highest: u64, seen: bv64)

  const EMPTY: Window := Window(0, 0)

  predicate Acceptable(w: Window, counter: u64) {
    counter != 0
    && (counter > w.highest
        || (w.highest - counter < WIDTH && Clear(w.seen, Amount(w.highest - counter))))
  }

  /** What `record` leaves behind; it is only called on acceptable counters. */
  function Recorded(w: Window, counter: u64): Window
    requires Acceptable(w, counter)
  {
    if counter > w.highest then
      var delta := counter - w.highest;
      var shifted := if delta >= WIDTH then 0 else ShiftLeft(w.seen, Amount(delta));
      Window(counter, WithLowBit(shifted))
    else
      w.(seen := WithBit(w.seen, Amount(w.highest - counter)))
  }

  function Offered(w: Window, counter: u64): Window {
    if Acceptable(w, counter) then Recorded(w, counter) else w
  }

  // ---- the window as the set of counters it has accepted ----

  /** The reference rule: new, non-zero, and not older than the window. */
  predicate Fresh(accepted: set<u64>, highest: u64, counter: u64) {
    counter >= 1 && counter !in accepted && (counter > highest || highest - counter < WIDTH)
  }

  /** Bit `i` of the bitmap is set exactly when `highest - i` was accepted. */
  ghost predicate Refines(w: Window, accepted: set<u64>) {
    && (forall c :: c in accepted ==> 1 <= c <= w.highest)
    && (w.highest == 0 || w.highest in accepted)
    && (forall i: nat | i < WIDTH :: Bit(w.seen, i) <==> i < w.highest && w.highest - i in accepted)
  }

  lemma EmptyRefines()
    ensures Refines(EMPTY, {})
  {
    forall i: nat | i < WIDTH ensures !Bit(EMPTY.seen, i) { NoBits(i); }
  }

  lemma AcceptableIsFresh(w: Window, accepted: set<u64>, counter: u64)
    requires Refines(w, accepted)
    ensures Acceptable(w, counter) <==> Fresh(accepted, w.highest, counter)
  {
    hide Clear, Bit;
    if 0 < counter <= w.highest && w.highest - counter < WIDTH {
      ClearBit(w.seen, w.highest - counter);
      assert Bit(w.seen, w.highest - counter) <==> counter in accepted;
    }
  }

  lemma AdvanceBit(w: Window, accepted: set<u64>, counter: u64, i: nat)
    requires Refines(w, accepted) && counter > w.highest && i < WIDTH
    ensures Bit(Recorded(w, counter).seen, i) <==> i < counter && counter - i in accepted + {counter}
  {
    hide Bit, ShiftLeft, WithLowBit;
    var delta := counter - w.highest;
    if delta >= WIDTH {
      SetLowBit(0, i);
      NoBits(i);
    } else {
      SetLowBit(ShiftLeft(w.seen, Amount(delta)), i);
      ShiftedBit(w.seen, delta, i);
      if delta <= i {
        assert w.highest - (i - delta) == counter - i;
      }
    }
  }

  lemma FillBit(w: Window, accepted: set<u64>, counter: u64, i: nat)
    requires Refines(w, accepted) && Acceptable(w, counter) && counter <= w.highest && i < WIDTH
    ensures Bit(Recorded(w, counter).seen, i) <==> i < w.highest && w.highest - i in accepted + {counter}
  {
    hide Bit, WithBit, Clear;
    SetBit(w.seen, w.highest - counter, i);
  }

  /** Accepting a counter is adding it to the set. */
  lemma RecordedRefines(w: Window, accepted: set<u64>, counter: u64)
    requires Refines(w, accepted) && Acceptable(w, counter)
    ensures Refines(Recorded(w, counter), accepted + {counter})
  {
    var w' := Recorded(w, counter);
    forall i: nat | i < WIDTH
      ensures Bit(w'.seen, i) <==> i < w'.highest && w'.highest - i in accepted + {counter}
    {
      if counter > w.highest {
        AdvanceBit(w, accepted, counter, i);
      } else {
        FillBit(w, accepted, counter, i);
      }
    }
  }

  // ---- whole runs ----

  /** The window and the verdicts after offering `counters` in order. */
  function WindowRun(w: Window, counters: seq<u64>): (Window, seq<bool>)
    decreases |counters|
  {
    if counters == [] then (w, [])
    else
      var (w', verdicts) := WindowRun(Offered(w, counters[0]), counters[1..]);
      (w', [Acceptable(w, counters[0])] + verdicts)
  }

  /** The same run on a plain set of accepted counters and its maximum. */
  function SetRun(accepted: set<u64>, highest: u64, counters: seq<u64>): (set<u64>, u64, seq<bool>)
    decreases |counters|
  {
    if counters == [] then (accepted, highest, [])
    else
      var c := counters[0];
      var ok := Fresh(accepted, highest, c);
      var (a, h, verdicts) :=
        SetRun(if ok then accepted + {c} else accepted,
               if ok && c > highest then c else highest,
               counters[1..]);
      (a, h, [ok] + verdicts)
  }

  /** On every input the bitmap and the set give the same verdicts and end in step. */
  lemma {:induction false} RunsAgree(w: Window, accepted: set<u64>, counters: seq<u64>)
    requires Refines(w, accepted)
    ensures var (w', verdicts) := WindowRun(w, counters);
            var (a, h, expected) := SetRun(accepted, w.highest, counters);
            verdicts == expected && Refines(w', a) && w'.highest == h
    decreases |counters|
  {
    if counters != [] {
      AcceptableIsFresh(w, accepted, counters[0]);
      if Acceptable(w, counters[0]) {
        RecordedRefines(w, accepted, counters[0]);
        RunsAgree(Recorded(w, counters[0]), accepted + {counters[0]}, counters[1..]);
      } else {
        RunsAgree(w, accepted, counters[1..]);
      }
    }
  }

  // ---- the object ----

  class ReplayWindow {
    var highest: u64
    var seen: bv64

    ghost function State(): Window
      reads this
    {
      Window(highest, seen)
    }

    constructor ()
      ensures State() == EMPTY
    {
      highest, seen := 0, 0;
    }

    method Accept(counter: u64) returns (acceptable: bool)
      modifies this
      ensures acceptable <==> Acceptable(old(State()), counter)
      ensures State() == Offered(old(State()), counter)
    {
      hide Clear;
      acceptable := counter != 0;
      if acceptable && counter <= highest {
        var delta := highest - counter;
        acceptable := delta < WIDTH;
        if acceptable {
          acceptable := Clear(seen, Amount(delta));
        }
      }
      if acceptable {
        Record(counter);
      }
    }

    method Record(counter: u64)
      requires Acceptable(State(), counter)
      modifies this
      ensures State() == Recorded(old(State()), counter)
    {
      hide ShiftLeft, WithBit, WithLowBit;
      if counter > highest {
        var delta := counter - highest;
        if delta >= WIDTH {
          seen := 0;
        } else {
          seen := ShiftLeft(seen, Amount(delta));
        }
        highest := counter;
        seen := WithLowBit(seen);
      } else if counter > 0 {
        seen := WithBit(seen, Amount(highest - counter));
      }
    }
  }
}
