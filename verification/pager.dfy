/** The feed pager: the scan over the fetched JSON feed that appends three
    list elements to a reply and a "VIEW MORE" button carrying the cursor. */
module Pager {
  import opened Wrappers
  import opened Js
  import opened Template

  /** One record of the remote feed. A JSON entry that is a number or a
      string has no such properties: it is the record with all four fields
      `Undefined`. */
  datatype Record = Record(title: Value, subtitle: Value, imageUrl: Value, url: Value)

  /** The fetched feed, indexed like the JSON array; `None` is an entry
      that is `null` or missing. */
  type Feed = seq<Option<Record>>

  /** A record is usable when all four fields are truthy. */
  predicate Valid(rec: Record) {
    Truthy(rec.title) && Truthy(rec.subtitle) && Truthy(rec.imageUrl) && Truthy(rec.url)
  }

  /** `json[i]`: anything outside the array is missing too. */
  function At(feed: Feed, i: int): Option<Record> {
    if 0 <= i < |feed| then feed[i] else None
  }

  predicate Present(feed: Feed, i: int) {
    At(feed, i).Some?
  }

  predicate ValidAt(feed: Feed, i: int) {
    Present(feed, i) && Valid(At(feed, i).value)
  }

  /** The list element built from a record; its fields are copied as they are. */
  function ToElement(rec: Record): Element {
    Element(rec.title, rec.subtitle, rec.imageUrl, WebUrl(rec.url))
  }

  /** The loop's state: the cursor, the elements added so far, and (for the
      proofs) every index visited, in order. */
  datatype Progress = Progress(counter: int, picked: seq<Element>, visited: seq<int>)

  function Start(start: int): Progress {
    Progress(start, [], [])
  }

  /** One iteration after reading record `rec` at index `i`: a valid record
      is appended and becomes the cursor; an invalid one resets the cursor
      to -1, so the next index is 0. */
  function Visit(p: Progress, i: int, rec: Record): Progress {
    if Valid(rec) then Progress(i, p.picked + [ToElement(rec)], p.visited + [i])
    else Progress(-1, p.picked, p.visited + [i])
  }

  /** How the scan ends. `Missing` is a read of an absent entry, which
      throws; `OutOfFuel` means the loop is still running. */
  datatype Outcome =
    | Finished(scan: Progress)
    | Missing(scan: Progress, index: int)
    | OutOfFuel(scan: Progress)

  /** The scan loop run for at most `fuel` iterations. */
  function Run(feed: Feed, p: Progress, fuel: nat): (o: Outcome)
    ensures o.Finished? && |p.picked| <= 3 ==> |o.scan.picked| == 3
    ensures !o.Finished? ==> |o.scan.picked| < 3 || |p.picked| >= 3
    ensures o.Missing? ==> !Present(feed, o.index) && o.index == o.scan.counter + 1
    ensures p.picked <= o.scan.picked && p.visited <= o.scan.visited
    ensures |o.scan.visited| - |p.visited| <= fuel
    decreases fuel
  {
    if |p.picked| >= 3 then Finished(p)
    else if fuel == 0 then OutOfFuel(p)
    else
      var i := p.counter + 1;
      match At(feed, i)
      case None => Missing(p, i)
      case Some(rec) => Run(feed, Visit(p, i, rec), fuel - 1)
  }

  /** The cursor after visiting index `i`. */
  function CursorAfter(feed: Feed, i: int): int {
    if ValidAt(feed, i) then i else -1
  }

  /** The `k`-th visit follows the one before it: the next index after a
      valid record, index 0 after an invalid one. */
  predicate Follows(feed: Feed, vs: seq<int>, k: int)
    requires 0 < k < |vs|
  {
    vs[k] == if ValidAt(feed, vs[k - 1]) then vs[k - 1] + 1 else 0
  }

  /** The elements that visiting `vs` in order appends. */
  function Harvest(feed: Feed, vs: seq<int>): seq<Element>
    decreases |vs|
  {
    if vs == [] then []
    else
      var i := vs[|vs| - 1];
      Harvest(feed, vs[..|vs| - 1]) + (if ValidAt(feed, i) then [ToElement(At(feed, i).value)] else [])
  }

  /** What the loop keeps true about its state, for a scan begun at `start`. */
  ghost predicate Consistent(feed: Feed, start: int, p: Progress) {
    && (forall k :: 0 <= k < |p.visited| ==> Present(feed, p.visited[k]))
    && (forall k :: 0 < k < |p.visited| ==> Follows(feed, p.visited, k))
    && (if p.visited == [] then p.counter == start
        else p.visited[0] == start + 1 && p.counter == CursorAfter(feed, p.visited[|p.visited| - 1]))
    && p.picked == Harvest(feed, p.visited)
  }

  lemma VisitKeepsConsistent(feed: Feed, start: int, p: Progress, rec: Record)
    requires Consistent(feed, start, p)
    requires At(feed, p.counter + 1) == Some(rec)
    ensures Consistent(feed, start, Visit(p, p.counter + 1, rec))
  {
    var q := Visit(p, p.counter + 1, rec);
    assert q.visited[..|q.visited| - 1] == p.visited;
    forall k | 0 < k < |q.visited|
      ensures Follows(feed, q.visited, k)
    {
      if k < |p.visited| {
        assert Follows(feed, p.visited, k);
      }
    }
  }

  /** Every state the loop reaches is consistent. */
  lemma {:induction false} RunKeepsConsistent(feed: Feed, start: int, p: Progress, fuel: nat)
    requires Consistent(feed, start, p)
    ensures Consistent(feed, start, Run(feed, p, fuel).scan)
    decreases fuel
  {
    var o := Run(feed, p, fuel);
    if |p.picked| >= 3 || fuel == 0 || At(feed, p.counter + 1).None? {
      assert o.scan == p;
    } else {
      var i := p.counter + 1;
      var q := Visit(p, i, At(feed, i).value);
      VisitKeepsConsistent(feed, start, p, At(feed, i).value);
      RunKeepsConsistent(feed, start, q, fuel - 1);
      SameConsistent(feed, start, Run(feed, q, fuel - 1).scan, o.scan);
    }
  }

  /** Carries `Consistent` across an equality; calling it in the recursive
      case of `RunKeepsConsistent` keeps that proof cheap for the solver. */
  lemma SameConsistent(feed: Feed, start: int, x: Progress, y: Progress)
    requires Consistent(feed, start, x) && x == y
    ensures Consistent(feed, start, y)
  {
  }

  /** Visit order: the scan first reads `start + 1`; after a valid record it
      reads the next index, after an invalid one it reads index 0. Every
      visited index exists in the feed. */
  lemma VisitOrder(feed: Feed, start: int, fuel: nat)
    ensures var vs := Run(feed, Start(start), fuel).scan.visited;
      && (|vs| > 0 ==> vs[0] == start + 1)
      && (forall k :: 0 < k < |vs| ==> Follows(feed, vs, k))
      && (forall k :: 0 <= k < |vs| ==> Present(feed, vs[k]))
  {
    RunKeepsConsistent(feed, start, Start(start), fuel);
  }

  /** Every element in `Harvest` is built from a valid visited record. */
  lemma {:induction false} HarvestFromValid(feed: Feed, vs: seq<int>)
    ensures |Harvest(feed, vs)| <= |vs|
    ensures forall e :: e in Harvest(feed, vs) ==>
      exists k :: 0 <= k < |vs| && ValidAt(feed, vs[k]) && e == ToElement(At(feed, vs[k]).value)
    decreases |vs|
  {
    if vs != [] {
      var front := vs[..|vs| - 1];
      HarvestFromValid(feed, front);
      forall e | e in Harvest(feed, vs)
        ensures exists k :: 0 <= k < |vs| && ValidAt(feed, vs[k]) && e == ToElement(At(feed, vs[k]).value)
      {
        if e in Harvest(feed, front) {
          var k :| 0 <= k < |front| && ValidAt(feed, front[k]) && e == ToElement(At(feed, front[k]).value);
          assert vs[k] == front[k];
        } else {
          assert ValidAt(feed, vs[|vs| - 1]);
        }
      }
    }
  }

  /** Every element the pager appends is copied field by field from a valid
      record of the feed that the scan visited. */
  lemma CopiedFromValid(feed: Feed, start: int, fuel: nat)
    ensures var s := Run(feed, Start(start), fuel).scan;
      forall e :: e in s.picked ==>
        exists k :: 0 <= k < |s.visited| && ValidAt(feed, s.visited[k]) &&
          var rec := At(feed, s.visited[k]).value;
          && e.title == rec.title && Truthy(e.title)
          && e.subtitle == rec.subtitle && Truthy(e.subtitle)
          && e.imageUrl == rec.imageUrl && Truthy(e.imageUrl)
          && e.defaultAction == WebUrl(rec.url) && Truthy(e.defaultAction.url)
  {
    var s := Run(feed, Start(start), fuel).scan;
    RunKeepsConsistent(feed, start, Start(start), fuel);
    HarvestFromValid(feed, s.visited);
  }

  /** A scan that finishes from a state with fewer than three elements
      ends right after appending its last element: the cursor is the last
      visited index, that record is valid, and it is the last element's source. */
  lemma {:induction false} FinishesOnValid(feed: Feed, p: Progress, fuel: nat)
    requires |p.picked| < 3
    requires Run(feed, p, fuel).Finished?
    ensures var s := Run(feed, p, fuel).scan;
      && |s.visited| > |p.visited|
      && s.counter == s.visited[|s.visited| - 1]
      && ValidAt(feed, s.counter)
      && s.picked[|s.picked| - 1] == ToElement(At(feed, s.counter).value)
    decreases fuel
  {
    var i := p.counter + 1;
    match At(feed, i)
    case None =>
    case Some(rec) =>
      var q := Visit(p, i, rec);
      if |q.picked| < 3 {
        FinishesOnValid(feed, q, fuel - 1);
      }
  }

  /** When the scan finishes it has added exactly three elements; the cursor
      is the index of the last visited record, which is valid and is the
      source of the last element. */
  lemma FinishedShape(feed: Feed, start: int, fuel: nat)
    requires Run(feed, Start(start), fuel).Finished?
    ensures var s := Run(feed, Start(start), fuel).scan;
      && |s.picked| == 3
      && |s.visited| >= 3
      && s.counter == s.visited[|s.visited| - 1]
      && ValidAt(feed, s.counter)
      && s.picked[2] == ToElement(At(feed, s.counter).value)
  {
    var s := Run(feed, Start(start), fuel).scan;
    RunKeepsConsistent(feed, start, Start(start), fuel);
    HarvestFromValid(feed, s.visited);
    FinishesOnValid(feed, Start(start), fuel);
  }

  /** The result of `callChatbotApi`. `Resolved` carries the completed
      reply; `Failed` is a read of the missing entry `index`, which throws
      inside the promise callback so the promise never settles;
      `Unfinished` means the scan was still looping when the iteration
      bound ran out. */
  datatype PageResult =
    | Resolved(reply: Reply)
    | Failed(index: int)
    | Unfinished

  /** The pager loop: scan from `start`, append the three elements to
      `response`, then append the "VIEW MORE" button holding the final
      cursor. `fuel` bounds the number of iterations. */
  method CallChatbotApi(response: Reply, start: int, feed: Feed, fuel: nat) returns (r: PageResult)
    ensures var o := Run(feed, Start(start), fuel);
      && (r.Resolved? <==> o.Finished?)
      && (r.Failed? <==> o.Missing?)
      && (r.Failed? ==> r.index == o.index && !Present(feed, r.index))
      && (r.Resolved? ==>
            r.reply == response.(payload := response.payload.(
                         elements := response.payload.elements + o.scan.picked,
                         buttons := response.payload.buttons + [ViewMore(o.scan.counter)])))
    ensures r.Resolved? ==>
      && r.reply.attachmentType == response.attachmentType
      && |r.reply.payload.elements| == |response.payload.elements| + 3
      && r.reply.payload.elements[..|response.payload.elements|] == response.payload.elements
      && r.reply.payload.buttons == response.payload.buttons + [ViewMore(r.reply.payload.buttons[|r.reply.payload.buttons| - 1].payload)]
  {
    var added := 0;
    var counter := start;
    var elements := response.payload.elements;
    var left := fuel;
    ghost var p := Start(start);
    while added < 3
      invariant 0 <= added <= 3
      invariant p.counter == counter && |p.picked| == added
      invariant elements == response.payload.elements + p.picked
      invariant Run(feed, p, left) == Run(feed, Start(start), fuel)
      decreases left
    {
      if left == 0 {
        return Unfinished;
      }
      counter := counter + 1;
      if !(0 <= counter < |feed|) || feed[counter].None? {
        return Failed(counter);
      }
      var rec := feed[counter].value;
      p := Visit(p, counter, rec);
      if Valid(rec) {
        elements := elements + [ToElement(rec)];
        added := added + 1;
      } else {
        counter := -1;
      }
      left := left - 1;
    }
    var buttons := response.payload.buttons + [ViewMore(counter)];
    r := Resolved(response.(payload := response.payload.(elements := elements, buttons := buttons)));
  }
}
