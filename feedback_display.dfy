/** The live set of feedback messages: incoming messages are merged in by id,
    each visible message has one expiry timer, an expiry removes its id, and
    the teardown cancels every timer. Timer durations are not modelled; a
    timer firing is the event Expire. */
module FeedbackDisplayComponent {
  import opened Types

  /** The incoming messages whose id is not visible yet, in incoming order.
      Ids are compared against the list as it was before the merge. */
  function Admitted(visible: seq<FeedbackMessage>, incoming: seq<FeedbackMessage>): (r: seq<FeedbackMessage>)
    ensures forall m :: m in r <==> m in incoming && m.id !in Ids(visible)
    ensures |r| <= |incoming|
  {
    if incoming == [] then []
    else if incoming[0].id in Ids(visible) then Admitted(visible, incoming[1..])
    else [incoming[0]] + Admitted(visible, incoming[1..])
  }

  /** The messages of s whose id is not id, in their original order. */
  function RemoveId(s: seq<FeedbackMessage>, id: string): (r: seq<FeedbackMessage>)
    ensures forall m :: m in r <==> m in s && m.id != id
    ensures |r| <= |s|
  {
    if s == [] then []
    else if s[0].id == id then RemoveId(s[1..], id)
    else [s[0]] + RemoveId(s[1..], id)
  }

  /** The first message of s carrying the given id. */
  function FirstWithId(s: seq<FeedbackMessage>, id: string): (m: FeedbackMessage)
    requires id in Ids(s)
    ensures m in s && m.id == id
  {
    if s[0].id == id then s[0]
    else
      assert id in Ids(s[1..]) by { IdsCons(s); }
      FirstWithId(s[1..], id)
  }

  /** No two messages share an id. */
  predicate UniqueIds(s: seq<FeedbackMessage>)
  {
    forall i, j :: 0 <= i < j < |s| ==> s[i].id != s[j].id
  }

  // ---------------------------------------------------------------------------
  // The merge and the timer map, as the component computes them

  /** Copies the visible list and pushes every incoming message whose id the
      visible list does not have. */
  method MergeVisible(visible: seq<FeedbackMessage>, messages: seq<FeedbackMessage>)
    returns (next: seq<FeedbackMessage>)
    ensures next == visible + Admitted(visible, messages)
  {
    next := visible;
    var i := 0;
    while i < |messages|
      invariant 0 <= i <= |messages|
      invariant next == visible + Admitted(visible, messages[..i])
    {
      var message := messages[i];
      assert messages[..i + 1] == messages[..i] + [message];
      MergeStep(visible, messages[..i], message);
      if message.id !in Ids(visible) {
        next := next + [message];
      }
      i := i + 1;
    }
    assert messages[..i] == messages;
  }

  /** The timer map armed for the messages of s: one entry per distinct id,
      holding the duration of the first message with that id. */
  ghost predicate ArmedFor(timers: map<string, int>, s: seq<FeedbackMessage>)
  {
    timers.Keys == Ids(s)
    && forall id :: id in timers ==> timers[id] == FirstWithId(s, id).duration
  }

  /** One timeout per distinct visible id, armed with the duration of the
      first visible message carrying it. */
  method ArmTimers(visible: seq<FeedbackMessage>) returns (timers: map<string, int>)
    ensures timers.Keys == Ids(visible)
    ensures forall id :: id in timers ==> timers[id] == FirstWithId(visible, id).duration
  {
    timers := map[];
    var i := 0;
    while i < |visible|
      invariant 0 <= i <= |visible|
      invariant ArmedFor(timers, visible[..i])
    {
      var message := visible[i];
      assert visible[..i + 1] == visible[..i] + [message];
      ArmStep(timers, visible[..i], message);
      if message.id !in timers {
        timers := timers[message.id := message.duration];
      }
      i := i + 1;
    }
    assert visible[..i] == visible;
  }

  /** One pass of the merge loop: the message is pushed iff its id is unknown. */
  lemma MergeStep(v: seq<FeedbackMessage>, done: seq<FeedbackMessage>, m: FeedbackMessage)
    ensures m.id in Ids(v) ==> v + Admitted(v, done + [m]) == v + Admitted(v, done)
    ensures m.id !in Ids(v) ==> v + Admitted(v, done + [m]) == v + Admitted(v, done) + [m]
  {
    AdmittedAppend(v, done, [m]);
    assert Admitted(v, [m][1..]) == [];
  }

  /** One pass of the timer loop: an id seen for the first time is armed with
      this message's duration, and an id already armed keeps its timer. */
  lemma ArmStep(timers: map<string, int>, done: seq<FeedbackMessage>, m: FeedbackMessage)
    requires ArmedFor(timers, done)
    ensures m.id in timers ==> ArmedFor(timers, done + [m])
    ensures m.id !in timers ==> ArmedFor(timers[m.id := m.duration], done + [m])
  {
    IdsAppend(done, [m]);
    assert Ids([m]) == {m.id};
    forall id | id in Ids(done + [m])
      ensures id in Ids(done) ==> FirstWithId(done + [m], id) == FirstWithId(done, id)
      ensures id !in Ids(done) ==> id == m.id && FirstWithId(done + [m], id) == m
    {
      FirstWithIdAppend(done, [m], id);
    }
  }

  // ---------------------------------------------------------------------------
  // Lemmas about the pieces

  lemma IdsAppend(a: seq<FeedbackMessage>, b: seq<FeedbackMessage>)
    ensures Ids(a + b) == Ids(a) + Ids(b)
  {
    forall id | id in Ids(a + b) ensures id in Ids(a) + Ids(b) {
      var w :| w in a + b && w.id == id;
    }
  }

  lemma IdsCons(s: seq<FeedbackMessage>)
    requires s != []
    ensures Ids(s) == {s[0].id} + Ids(s[1..])
  {
    assert s == [s[0]] + s[1..];
    IdsAppend([s[0]], s[1..]);
    assert Ids([s[0]]) == {s[0].id};
  }

  lemma {:induction false} FirstWithIdAppend(a: seq<FeedbackMessage>, b: seq<FeedbackMessage>, id: string)
    requires id in Ids(a + b)
    ensures id in Ids(a) ==> FirstWithId(a + b, id) == FirstWithId(a, id)
    ensures id !in Ids(a) ==> id in Ids(b) && FirstWithId(a + b, id) == FirstWithId(b, id)
    decreases |a|
  {
    IdsAppend(a, b);
    if a == [] {
      assert a + b == b;
    } else if a[0].id == id {
      assert (a + b)[0] == a[0];
    } else {
      assert (a + b)[0] == a[0] && (a + b)[1..] == a[1..] + b;
      IdsCons(a + b);
      IdsCons(a);
      FirstWithIdAppend(a[1..], b, id);
    }
  }

  /** Merging a batch piece by piece is the same as merging it at once, so
      admitted messages keep their incoming order. */
  lemma {:induction false} AdmittedAppend(v: seq<FeedbackMessage>, a: seq<FeedbackMessage>, b: seq<FeedbackMessage>)
    ensures Admitted(v, a + b) == Admitted(v, a) + Admitted(v, b)
    decreases |a|
  {
    if a == [] {
      assert a + b == b;
    } else {
      assert (a + b)[0] == a[0] && (a + b)[1..] == a[1..] + b;
      AdmittedAppend(v, a[1..], b);
    }
  }

  /** An empty batch leaves the visible list as it is. */
  lemma MergeEmpty(v: seq<FeedbackMessage>)
    ensures v + Admitted(v, []) == v
  {
  }

  /** The indices of incoming messages whose id is not visible. */
  function UnknownIndices(v: seq<FeedbackMessage>, incoming: seq<FeedbackMessage>): set<nat>
  {
    set i: nat | i < |incoming| && incoming[i].id !in Ids(v)
  }

  /** Appending one message adds its index exactly when its id is unknown. */
  lemma UnknownIndicesSnoc(v: seq<FeedbackMessage>, init: seq<FeedbackMessage>, last: FeedbackMessage)
    ensures last.id in Ids(v) ==> UnknownIndices(v, init + [last]) == UnknownIndices(v, init)
    ensures last.id !in Ids(v) ==> UnknownIndices(v, init + [last]) == UnknownIndices(v, init) + {|init|}
  {
    var incoming := init + [last];
    assert forall i :: 0 <= i < |init| ==> incoming[i] == init[i];
    assert incoming[|init|] == last;
  }

  /** The merge adds exactly one message per incoming message with an unknown id. */
  lemma {:induction false} MergeLength(v: seq<FeedbackMessage>, incoming: seq<FeedbackMessage>)
    ensures |v + Admitted(v, incoming)| == |v| + |UnknownIndices(v, incoming)|
    decreases |incoming|
  {
    if incoming != [] {
      var n := |incoming| - 1;
      var init, last := incoming[..n], incoming[n];
      assert incoming == init + [last];
      AdmittedAppend(v, init, [last]);
      MergeLength(v, init);
      UnknownIndicesSnoc(v, init, last);
      assert n !in UnknownIndices(v, init);
    }
  }

  /** A batch whose ids are all visible admits nothing. */
  lemma {:induction false} AdmittedAllKnown(v: seq<FeedbackMessage>, incoming: seq<FeedbackMessage>)
    requires forall m :: m in incoming ==> m.id in Ids(v)
    ensures Admitted(v, incoming) == []
    decreases |incoming|
  {
    if incoming != [] {
      assert incoming[0] in incoming;
      assert forall m :: m in incoming[1..] ==> m in incoming;
      AdmittedAllKnown(v, incoming[1..]);
    }
  }

  /** Merging the same batch again adds nothing. */
  lemma MergeIdempotent(v: seq<FeedbackMessage>, incoming: seq<FeedbackMessage>)
    ensures var once := v + Admitted(v, incoming);
            once + Admitted(once, incoming) == once
  {
    var admitted := Admitted(v, incoming);
    var once := v + admitted;
    IdsAppend(v, admitted);
    forall m | m in incoming ensures m.id in Ids(once) {
      if m.id !in Ids(v) {
        assert m in admitted;
      }
    }
    AdmittedAllKnown(once, incoming);
  }

  lemma {:induction false} AdmittedUnique(v: seq<FeedbackMessage>, incoming: seq<FeedbackMessage>)
    requires UniqueIds(incoming)
    ensures UniqueIds(Admitted(v, incoming))
    decreases |incoming|
  {
    if incoming != [] {
      var rest := incoming[1..];
      AdmittedUnique(v, rest);
      var r := Admitted(v, rest);
      forall m | m in r ensures m.id != incoming[0].id {
        var k :| 0 <= k < |rest| && rest[k] == m;
        assert incoming[k + 1] == m;
      }
    }
  }

  /** With distinct ids on both sides, the merged list has distinct ids. */
  lemma MergeKeepsIdsUnique(v: seq<FeedbackMessage>, incoming: seq<FeedbackMessage>)
    requires UniqueIds(v) && UniqueIds(incoming)
    ensures UniqueIds(v + Admitted(v, incoming))
  {
    var a := Admitted(v, incoming);
    AdmittedUnique(v, incoming);
    var s := v + a;
    forall i, j | 0 <= i < j < |s| ensures s[i].id != s[j].id {
      if j >= |v| && i < |v| {
        assert s[j] == a[j - |v|] && s[j] in a;
        assert s[i] in v;
      } else if i >= |v| {
        assert s[i] == a[i - |v|] && s[j] == a[j - |v|];
      }
    }
  }

  /** The ids are checked against the list before the merge, so two incoming
      messages with one new id are both admitted. */
  lemma SameIdInOneBatch(v: seq<FeedbackMessage>, a: FeedbackMessage, b: FeedbackMessage)
    requires a.id == b.id && a.id !in Ids(v)
    ensures Admitted(v, [a, b]) == [a, b]
    ensures !UniqueIds(v + Admitted(v, [a, b]))
  {
    assert [a, b][1..] == [b];
    var s := v + [a, b];
    assert s[|v|].id == s[|v| + 1].id;
  }

  /** Expiring an id that is not visible changes nothing. */
  lemma {:induction false} RemoveAbsentId(s: seq<FeedbackMessage>, id: string)
    requires id !in Ids(s)
    ensures RemoveId(s, id) == s
    decreases |s|
  {
    if s != [] {
      assert s[0] in s;
      RemoveAbsentId(s[1..], id);
    }
  }

  /** Expiry filters piecewise, so the kept messages stay in their order. */
  lemma {:induction false} RemoveIdAppend(a: seq<FeedbackMessage>, b: seq<FeedbackMessage>, id: string)
    ensures RemoveId(a + b, id) == RemoveId(a, id) + RemoveId(b, id)
    decreases |a|
  {
    if a == [] {
      assert a + b == b;
    } else {
      assert (a + b)[0] == a[0] && (a + b)[1..] == a[1..] + b;
      RemoveIdAppend(a[1..], b, id);
    }
  }

  // ---------------------------------------------------------------------------
  // The component with its state

  class FeedbackDisplay {
    var visible: seq<FeedbackMessage>
    /** The armed timeouts: message id to the duration it was armed with. */
    var timers: map<string, int>
    var mounted: bool

    ghost predicate Valid()
      reads this
    {
      (mounted ==> timers.Keys == Ids(visible)
                   && forall id :: id in timers ==> timers[id] == FirstWithId(visible, id).duration)
      && (!mounted ==> timers == map[])
    }

    constructor ()
      ensures Valid() && mounted && visible == [] && timers == map[]
    {
      visible := [];
      timers := map[];
      mounted := true;
    }

    /** The timer effect after the visible list changed: the previous run's
        cleanup cancels every timeout, then a fresh map is built. */
    method RestartTimers()
      requires mounted
      modifies this`timers
      ensures Valid() && timers.Keys == Ids(visible)
    {
      timers := map[];
      var armed := ArmTimers(visible);
      timers := armed;
    }

    /** The merge effect for a new messages prop. */
    method ReceiveMessages(messages: seq<FeedbackMessage>)
      requires Valid() && mounted
      modifies this
      ensures Valid() && mounted
      ensures visible == old(visible) + Admitted(old(visible), messages)
      ensures messages == [] ==> visible == old(visible) && timers == old(timers)
    {
      if |messages| > 0 {
        var next := MergeVisible(visible, messages);
        visible := next;
        RestartTimers();
      }
    }

    /** The timeout armed for id fires and removes every message with that id. */
    method Expire(id: string) returns (fired: bool)
      requires Valid()
      modifies this
      ensures Valid() && mounted == old(mounted)
      ensures fired == (id in old(timers))
      ensures fired ==> visible == RemoveId(old(visible), id) && id !in Ids(visible)
      ensures !fired ==> visible == old(visible) && timers == old(timers)
    {
      fired := id in timers;
      if fired {
        visible := RemoveId(visible, id);
        RestartTimers();
      }
    }

    /** The component goes away: every pending timeout is cancelled. */
    method Teardown()
      requires Valid()
      modifies this
      ensures Valid() && !mounted && timers == map[]
      ensures visible == old(visible)
    {
      timers := map[];
      mounted := false;
    }
  }
}
