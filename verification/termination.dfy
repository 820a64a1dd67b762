/** When the pager's scan loop ends and when it does not. The source loop
    has no bound; here `Run` with enough fuel stands for it ending, and
    `OutOfFuel` for every fuel stands for it looping forever. */
module Termination {
  import opened Wrappers
  import opened Js
  import opened Template
  import opened Pager

  /** More fuel changes nothing once a run has ended. */
  lemma {:induction false} FuelMonotone(feed: Feed, p: Progress, f1: nat, f2: nat)
    requires f1 <= f2
    requires !Run(feed, p, f1).OutOfFuel?
    ensures Run(feed, p, f2) == Run(feed, p, f1)
    decreases f1
  {
    if |p.picked| < 3 {
      var i := p.counter + 1;
      match At(feed, i)
      case None =>
      case Some(rec) => FuelMonotone(feed, Visit(p, i, rec), f1 - 1, f2 - 1);
    }
  }

  /** Iterations still needed, at worst, when record 0 is valid: each
      missing element costs at most an invalid read and the read of index 0. */
  function WorstCase(p: Progress): nat {
    if |p.picked| >= 3 then 0
    else 2 * (3 - |p.picked|) - (if p.counter == -1 then 1 else 0)
  }

  lemma {:induction false} QuickFinishFrom(feed: Feed, p: Progress, fuel: nat)
    requires ValidAt(feed, 0)
    requires fuel >= WorstCase(p)
    ensures !Run(feed, p, fuel).OutOfFuel?
    decreases fuel
  {
    if |p.picked| < 3 {
      var i := p.counter + 1;
      match At(feed, i)
      case None =>
      case Some(rec) => QuickFinishFrom(feed, Visit(p, i, rec), fuel - 1);
    }
  }

  /** If record 0 is valid, the loop ends within six iterations: it either
      completes or reads a missing entry, and more iterations change nothing. */
  lemma QuickFinish(feed: Feed, start: int)
    requires ValidAt(feed, 0)
    ensures var o := Run(feed, Start(start), 6); o.Finished? || o.Missing?
    ensures forall fuel: nat :: fuel >= 6 ==> Run(feed, Start(start), fuel) == Run(feed, Start(start), 6)
  {
    QuickFinishFrom(feed, Start(start), 6);
    forall fuel: nat | fuel >= 6
      ensures Run(feed, Start(start), fuel) == Run(feed, Start(start), 6)
    {
      FuelMonotone(feed, Start(start), 6, fuel);
    }
  }

  /** Before the first reset the cursor is `start` plus the number of
      elements added; after it, the cursor trails that number. */
  predicate CursorBounded(start: int, p: Progress) {
    p.counter >= -1 && (p.counter == start + |p.picked| || p.counter <= |p.picked| - 1)
  }

  lemma {:induction false} NoMissingFrom(feed: Feed, start: int, p: Progress, fuel: nat)
    requires forall i :: 0 <= i < |feed| ==> feed[i].Some?
    requires -1 <= start && start + 3 < |feed|
    requires |p.picked| <= 3 && CursorBounded(start, p)
    ensures !Run(feed, p, fuel).Missing?
    decreases fuel
  {
    if |p.picked| < 3 && fuel > 0 {
      var i := p.counter + 1;
      assert 0 <= i < |feed|;
      var rec := feed[i].value;
      NoMissingFrom(feed, start, Visit(p, i, rec), fuel - 1);
    }
  }

  /** A feed with no missing entries, a valid record 0, and room for three
      records after `start`, always yields a completed page within six
      iterations. */
  lemma FinishesOnCompleteFeed(feed: Feed, start: int)
    requires forall i :: 0 <= i < |feed| ==> feed[i].Some?
    requires ValidAt(feed, 0)
    requires -1 <= start && start + 3 < |feed|
    ensures Run(feed, Start(start), 6).Finished?
  {
    QuickFinish(feed, start);
    NoMissingFrom(feed, start, Start(start), 6);
  }

  /** With record 0 present but invalid, a reset cursor is stuck: every
      iteration reads index 0, finds it invalid, and resets again. */
  lemma {:induction false} StuckAtZero(feed: Feed, p: Progress, fuel: nat)
    requires Present(feed, 0) && !ValidAt(feed, 0)
    requires p.counter == -1 && |p.picked| < 3
    ensures Run(feed, p, fuel).OutOfFuel?
    ensures Run(feed, p, fuel).scan.picked == p.picked
    decreases fuel
  {
    if fuel > 0 {
      StuckAtZero(feed, Visit(p, 0, At(feed, 0).value), fuel - 1);
    }
  }

  predicate HitsInvalid(feed: Feed, vs: seq<int>, from: nat) {
    exists k :: from <= k < |vs| && !ValidAt(feed, vs[k])
  }

  lemma {:induction false} DivergesFrom(feed: Feed, p: Progress, fuel: nat)
    requires Present(feed, 0) && !ValidAt(feed, 0)
    requires |p.picked| < 3
    ensures var o := Run(feed, p, fuel);
      HitsInvalid(feed, o.scan.visited, |p.visited|) ==> o.OutOfFuel?
    decreases fuel
  {
    if fuel > 0 {
      var i := p.counter + 1;
      match At(feed, i)
      case None =>
      case Some(rec) =>
        var q := Visit(p, i, rec);
        var o := Run(feed, q, fuel - 1);
        if Valid(rec) {
          if |q.picked| < 3 {
            DivergesFrom(feed, q, fuel - 1);
            if HitsInvalid(feed, o.scan.visited, |p.visited|) {
              var k :| |p.visited| <= k < |o.scan.visited| && !ValidAt(feed, o.scan.visited[k]);
              assert o.scan.visited[|p.visited|] == i;
              assert k != |p.visited|;
            }
          } else {
            assert o == Finished(q);
            assert q.visited == p.visited + [i];
          }
        } else {
          StuckAtZero(feed, q, fuel - 1);
        }
    }
  }

  /** With record 0 present but invalid, once the scan reads any invalid
      record it can never finish nor fail: it is out of fuel for every
      bound. So the only way to finish is three valid records read in a row. */
  lemma NeverFinishesAfterInvalid(feed: Feed, start: int, fuel: nat)
    requires Present(feed, 0) && !ValidAt(feed, 0)
    ensures var o := Run(feed, Start(start), fuel);
      HitsInvalid(feed, o.scan.visited, 0) ==> o.OutOfFuel?
    ensures var o := Run(feed, Start(start), fuel);
      o.Finished? ==> o.scan.visited == [start + 1, start + 2, start + 3]
  {
    var o := Run(feed, Start(start), fuel);
    DivergesFrom(feed, Start(start), fuel);
    VisitOrder(feed, start, fuel);
    if o.Finished? {
      FinishedShape(feed, start, fuel);
      var vs := o.scan.visited;
      assert forall k :: 0 <= k < |vs| ==> ValidAt(feed, vs[k]);
      RunKeepsConsistent(feed, start, Start(start), fuel);
      HarvestLength(feed, vs);
      assert |vs| == 3;
      assert Follows(feed, vs, 1) && Follows(feed, vs, 2);
    }
  }

  /** On a run of valid indices, every visit appends one element. */
  lemma {:induction false} HarvestLength(feed: Feed, vs: seq<int>)
    requires forall k :: 0 <= k < |vs| ==> ValidAt(feed, vs[k])
    ensures |Harvest(feed, vs)| == |vs|
    decreases |vs|
  {
    if vs != [] {
      HarvestLength(feed, vs[..|vs| - 1]);
    }
  }

  /** The feed `[A, {}, B, C, D]`: four valid records around an empty one. */
  function Sample(): Feed {
    [Some(Record(Str("A"), Str("s"), Str("i"), Str("u"))),
     Some(Record(Undefined, Undefined, Undefined, Undefined)),
     Some(Record(Str("B"), Str("s"), Str("i"), Str("u"))),
     Some(Record(Str("C"), Str("s"), Str("i"), Str("u"))),
     Some(Record(Str("D"), Str("s"), Str("i"), Str("u")))]
  }

  /** The same record can be appended more than once: on the sample feed
      the scan from cursor 0 reads 1, 0, 1, 0, 1, 0, appends record A three
      times and never reaches B, C or D; the cursor it hands back is 0. */
  lemma RepeatsRecord()
    ensures var a := ToElement(Sample()[0].value);
      Run(Sample(), Start(0), 6) == Finished(Progress(0, [a, a, a], [1, 0, 1, 0, 1, 0]))
  {
    SampleFirstHalf();
    SampleSecondHalf();
  }

  /** Reads of indices 1, 0, 1 from cursor 0: one copy of A. */
  lemma SampleFirstHalf()
    ensures var a := ToElement(Sample()[0].value);
      Run(Sample(), Start(0), 6) == Run(Sample(), Progress(-1, [a], [1, 0, 1]), 3)
  {
    var feed := Sample();
    var recA, blank := feed[0].value, feed[1].value;
    assert Valid(recA) && !Valid(blank);
    var a := ToElement(recA);
    var p1 := Progress(-1, [], [1]);
    var p2 := Progress(0, [a], [1, 0]);
    RunStep(feed, Start(0), 6, blank, p1);
    RunStep(feed, p1, 5, recA, p2);
    RunStep(feed, p2, 4, blank, Progress(-1, [a], [1, 0, 1]));
  }

  /** Reads of indices 0, 1, 0 after a reset: two more copies of A. */
  lemma SampleSecondHalf()
    ensures var a := ToElement(Sample()[0].value);
      Run(Sample(), Progress(-1, [a], [1, 0, 1]), 3) == Finished(Progress(0, [a, a, a], [1, 0, 1, 0, 1, 0]))
  {
  }

  /** One iteration of the loop, unfolded. */
  lemma RunStep(feed: Feed, p: Progress, fuel: nat, rec: Record, q: Progress)
    requires |p.picked| < 3 && fuel > 0
    requires At(feed, p.counter + 1) == Some(rec)
    requires q == Visit(p, p.counter + 1, rec)
    ensures Run(feed, p, fuel) == Run(feed, q, fuel - 1)
  {
  }
}
