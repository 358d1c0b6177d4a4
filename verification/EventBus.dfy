/** The replay buffers of apps/api/src/kernel/bus.ts against the full history of
    what was ever published. */
module EventBus {
  import opened Options

  const REPLAY_BUFFER_SIZE := 256
  const REPLAY_MAX_AGE_MS := 60_000

  datatype Topic = Topic(name: string)
  datatype Listener = Listener(id: nat)
  datatype Frame = Frame(delta: bool, body: string)

  datatype Buffered = Buffered(seq_: nat, frame: Frame, at: int)

  /** Everything ever published, in order. */
  datatype Published = Published(topic: Topic, entry: Buffered)

  // ----- the specification

  /** The topic's non-delta frames, oldest first. */
  function FramesOf(history: seq<Published>, topic: Topic): seq<Buffered> {
    if history == [] then []
    else
      var last := history[|history| - 1];
      FramesOf(history[..|history| - 1], topic)
      + if last.topic == topic && !last.entry.frame.delta then [last.entry] else []
  }

  function Newest(frames: seq<Buffered>): (newest: seq<Buffered>)
    ensures |newest| <= REPLAY_BUFFER_SIZE
  {
    if |frames| <= REPLAY_BUFFER_SIZE then frames else frames[|frames| - REPLAY_BUFFER_SIZE..]
  }

  /** A topic's frames are the entries published on it that are no deltas, and those alone;
      their numbers put them in order. */
  lemma {:induction false} FramesAreTheTopics(history: seq<Published>, topic: Topic, e: Buffered)
    ensures e in FramesOf(history, topic) <==>
            exists i :: 0 <= i < |history| && history[i] == Published(topic, e) && !e.frame.delta
  {
    if history != [] {
      var n := |history| - 1;
      var init, last := history[..n], history[n];
      FramesAreTheTopics(init, topic, e);
      if i :| 0 <= i < |history| && history[i] == Published(topic, e) && !e.frame.delta {
        assert i < n ==> init[i] == history[i];
      }
      assert last == Published(last.topic, last.entry);
    }
  }

  /** The newest are the last ones, all of them up to 256. */
  lemma NewestAreTheLast(frames: seq<Buffered>)
    ensures |Newest(frames)| == if |frames| <= 256 then |frames| else 256
    ensures Newest(frames) == frames[|frames| - |Newest(frames)|..]
  {
  }

  /** Frames past the cursor that are not too old. */
  function Fresh(frames: seq<Buffered>, afterSeq: int, cutoff: int): seq<Buffered> {
    if frames == [] then []
    else
      (if frames[0].seq_ > afterSeq && frames[0].at >= cutoff then [frames[0]] else [])
      + Fresh(frames[1..], afterSeq, cutoff)
  }

  /** What a reconnecting client is owed: of the newest frames of its topic, those
      it has not seen and that are at most a minute old. */
  function Owed(history: seq<Published>, topic: Topic, afterSeq: int, now: int): seq<Buffered> {
    Fresh(Newest(FramesOf(history, topic)), afterSeq, now - REPLAY_MAX_AGE_MS)
  }

  /** Times do not go back, and sequence numbers count what was published. */
  ghost predicate Timely(history: seq<Published>, now: int) {
    && (forall i :: 0 <= i < |history| ==> history[i].entry.at <= now && history[i].entry.seq_ == i + 1)
    && (forall i, j :: 0 <= i < j < |history| ==> history[i].entry.at <= history[j].entry.at)
  }

  ghost predicate InOrder(frames: seq<Buffered>, now: int, counter: nat) {
    && (forall i :: 0 <= i < |frames| ==> frames[i].at <= now && 1 <= frames[i].seq_ <= counter)
    && (forall i, j :: 0 <= i < j < |frames| ==> frames[i].at <= frames[j].at && frames[i].seq_ < frames[j].seq_)
  }

  lemma {:induction false} FramesInOrder(history: seq<Published>, topic: Topic, now: int)
    requires Timely(history, now)
    ensures InOrder(FramesOf(history, topic), now, |history|)
  {
    if history != [] {
      var init := history[..|history| - 1];
      var last := history[|history| - 1].entry;
      assert forall i :: 0 <= i < |init| ==> init[i] == history[i];
      FramesInOrder(init, topic, last.at);
    }
  }

  // ----- buffers

  /** The buffer is what is left of the topic's frames: a suffix, and of the newest
      ones it lacks only frames that a sweep already found too old. */
  ghost predicate Refines(buffer: seq<Buffered>, frames: seq<Buffered>, now: int) {
    && |buffer| <= |frames| && buffer == frames[|frames| - |buffer|..]
    && |buffer| <= REPLAY_BUFFER_SIZE
    && (forall i :: |frames| - REPLAY_BUFFER_SIZE <= i < |frames| - |buffer| && i >= 0 ==>
          frames[i].at < now - REPLAY_MAX_AGE_MS)
  }

  function BufferOf(buffers: map<Topic, seq<Buffered>>, topic: Topic): seq<Buffered> {
    if topic in buffers then buffers[topic] else []
  }

  function Kept(buffer: seq<Buffered>, cutoff: int): seq<Buffered> {
    if buffer == [] then []
    else (if buffer[0].at >= cutoff then [buffer[0]] else []) + Kept(buffer[1..], cutoff)
  }

  /** In time order, dropping the old entries drops a prefix. */
  lemma {:induction false} KeptIsSuffix(buffer: seq<Buffered>, cutoff: int)
    requires forall i, j :: 0 <= i < j < |buffer| ==> buffer[i].at <= buffer[j].at
    ensures var kept := Kept(buffer, cutoff);
            && |kept| <= |buffer| && kept == buffer[|buffer| - |kept|..]
            && forall i :: 0 <= i < |buffer| - |kept| ==> buffer[i].at < cutoff
  {
    if buffer != [] {
      KeptIsSuffix(buffer[1..], cutoff);
      var rest := Kept(buffer[1..], cutoff);
      if buffer[0].at >= cutoff {
        AllKept(buffer[1..], cutoff);
      } else {
        forall i | 0 < i < |buffer| - |rest| ensures buffer[i].at < cutoff {
          assert buffer[i] == buffer[1..][i - 1];
        }
      }
    }
  }

  lemma {:induction false} AllKept(buffer: seq<Buffered>, cutoff: int)
    requires forall i :: 0 <= i < |buffer| ==> buffer[i].at >= cutoff
    ensures Kept(buffer, cutoff) == buffer
  {
    if buffer != [] {
      AllKept(buffer[1..], cutoff);
    }
  }

  /** What `buffer` does with a new entry. */
  function Pushed(buffer: seq<Buffered>, entry: Buffered): seq<Buffered> {
    Newest(buffer + [entry])
  }

  lemma LaterRefines(buffer: seq<Buffered>, frames: seq<Buffered>, now: int, later: int)
    requires Refines(buffer, frames, now) && now <= later
    ensures Refines(buffer, frames, later)
  {
  }

  lemma PushRefines(buffer: seq<Buffered>, frames: seq<Buffered>, entry: Buffered, now: int, later: int)
    requires Refines(buffer, frames, now) && now <= later
    ensures Refines(Pushed(buffer, entry), frames + [entry], later)
  {
    var more, pushed := frames + [entry], Pushed(buffer, entry);
    assert buffer + [entry] == more[|more| - |buffer| - 1..];
    assert pushed == more[|more| - |pushed|..];
    forall i | |more| - REPLAY_BUFFER_SIZE <= i < |more| - |pushed| && i >= 0
      ensures more[i].at < later - REPLAY_MAX_AGE_MS
    {
      assert more[i] == frames[i];
    }
  }

  lemma SweepRefines(buffer: seq<Buffered>, frames: seq<Buffered>, now: int, later: int, counter: nat)
    requires Refines(buffer, frames, now) && now <= later && InOrder(frames, now, counter)
    ensures Refines(Kept(buffer, later - REPLAY_MAX_AGE_MS), frames, later)
  {
    var cutoff, gone := later - REPLAY_MAX_AGE_MS, |frames| - |buffer|;
    assert forall i :: 0 <= i < |buffer| ==> buffer[i] == frames[gone + i];
    KeptIsSuffix(buffer, cutoff);
    var kept := Kept(buffer, cutoff);
    forall i | |frames| - REPLAY_BUFFER_SIZE <= i < |frames| - |kept| && i >= 0 ensures frames[i].at < cutoff {
      if i >= gone {
        assert frames[i] == buffer[i - gone];
      }
    }
  }

  lemma {:induction false} FreshAppend(a: seq<Buffered>, b: seq<Buffered>, afterSeq: int, cutoff: int)
    ensures Fresh(a + b, afterSeq, cutoff) == Fresh(a, afterSeq, cutoff) + Fresh(b, afterSeq, cutoff)
  {
    if a == [] {
      assert a + b == b;
    } else {
      assert (a + b)[1..] == a[1..] + b;
      FreshAppend(a[1..], b, afterSeq, cutoff);
    }
  }

  lemma {:induction false} NoneFresh(a: seq<Buffered>, afterSeq: int, cutoff: int)
    requires forall i :: 0 <= i < |a| ==> a[i].at < cutoff || a[i].seq_ <= afterSeq
    ensures Fresh(a, afterSeq, cutoff) == []
  {
    if a != [] {
      NoneFresh(a[1..], afterSeq, cutoff);
    }
  }

  /** A buffer that refines the history answers a replay as the history would. */
  lemma RefinedReplay(buffer: seq<Buffered>, frames: seq<Buffered>, afterSeq: int, now: int)
    requires Refines(buffer, frames, now)
    ensures Fresh(buffer, afterSeq, now - REPLAY_MAX_AGE_MS) == Fresh(Newest(frames), afterSeq, now - REPLAY_MAX_AGE_MS)
  {
    var newest := Newest(frames);
    var lost := newest[..|newest| - |buffer|];
    assert newest == lost + buffer;
    var base := |frames| - |newest|;
    forall i | 0 <= i < |lost| ensures lost[i].at < now - REPLAY_MAX_AGE_MS {
      assert lost[i] == frames[base + i];
    }
    FreshAppend(lost, buffer, afterSeq, now - REPLAY_MAX_AGE_MS);
    NoneFresh(lost, afterSeq, now - REPLAY_MAX_AGE_MS);
  }

  /** Every buffer refines its topic's history. */
  ghost predicate Faithful(buffers: map<Topic, seq<Buffered>>, history: seq<Published>, now: int) {
    forall topic: Topic :: Refines(BufferOf(buffers, topic), FramesOf(history, topic), now)
  }

  /** The buffers after a frame is published. */
  function Remembered(buffers: map<Topic, seq<Buffered>>, topic: Topic, entry: Buffered): map<Topic, seq<Buffered>> {
    if entry.frame.delta then buffers else buffers[topic := Pushed(BufferOf(buffers, topic), entry)]
  }

  lemma PublishKeeps(buffers: map<Topic, seq<Buffered>>, history: seq<Published>, topic: Topic, entry: Buffered,
                     now: int, later: int)
    requires Faithful(buffers, history, now) && now <= later
    ensures Faithful(Remembered(buffers, topic, entry), history + [Published(topic, entry)], later)
  {
    var more, after := history + [Published(topic, entry)], Remembered(buffers, topic, entry);
    assert more[..|more| - 1] == history;
    forall t: Topic ensures Refines(BufferOf(after, t), FramesOf(more, t), later) {
      hide Refines;
      var buffer, frames := BufferOf(buffers, t), FramesOf(history, t);
      assert Refines(buffer, frames, now);
      if t == topic && !entry.frame.delta {
        PushRefines(buffer, frames, entry, now, later);
      } else {
        assert FramesOf(more, t) == frames + [] == frames;
        LaterRefines(buffer, frames, now, later);
      }
    }
  }

  lemma SweepKeeps(buffers: map<Topic, seq<Buffered>>, swept: map<Topic, seq<Buffered>>, history: seq<Published>,
                   now: int, later: int)
    requires Faithful(buffers, history, now) && Timely(history, now) && now <= later
    requires forall t :: BufferOf(swept, t) == Kept(BufferOf(buffers, t), later - REPLAY_MAX_AGE_MS)
    ensures Faithful(swept, history, later)
  {
    hide Refines;
    hide InOrder;
    forall t: Topic ensures Refines(BufferOf(swept, t), FramesOf(history, t), later) {
      FramesInOrder(history, t, now);
      SweepRefines(BufferOf(buffers, t), FramesOf(history, t), now, later, |history|);
    }
  }

  /** A sweep that has still to visit `todo`. */
  ghost predicate SweptBut(before: map<Topic, seq<Buffered>>, buffers: map<Topic, seq<Buffered>>, todo: set<Topic>,
                           heard: set<Topic>, cutoff: int) {
    && (forall t :: t in todo ==> t in before && t in buffers && buffers[t] == before[t])
    && (forall t :: t !in todo ==>
          && BufferOf(buffers, t) == Kept(BufferOf(before, t), cutoff)
          && (t in buffers <==> t in before && (BufferOf(buffers, t) != [] || t in heard)))
  }

  function SweptOne(buffers: map<Topic, seq<Buffered>>, topic: Topic, heard: set<Topic>, cutoff: int): map<Topic, seq<Buffered>>
    requires topic in buffers
  {
    var kept := Kept(buffers[topic], cutoff);
    if |kept| == 0 && topic !in heard then buffers - {topic} else buffers[topic := kept]
  }

  lemma SweepStarts(buffers: map<Topic, seq<Buffered>>, heard: set<Topic>, cutoff: int)
    ensures SweptBut(buffers, buffers, buffers.Keys, heard, cutoff)
  {
  }

  lemma SweepStep(before: map<Topic, seq<Buffered>>, buffers: map<Topic, seq<Buffered>>, todo: set<Topic>,
                  heard: set<Topic>, cutoff: int, topic: Topic)
    requires SweptBut(before, buffers, todo, heard, cutoff) && topic in todo
    ensures topic in buffers
    ensures SweptBut(before, SweptOne(buffers, topic, heard, cutoff), todo - {topic}, heard, cutoff)
  {
    hide Kept;
    var after := SweptOne(buffers, topic, heard, cutoff);
    forall t | t != topic
      ensures (t in after <==> t in buffers) && BufferOf(after, t) == BufferOf(buffers, t)
      ensures t in buffers ==> after[t] == buffers[t]
    {
    }
    assert BufferOf(after, topic) == Kept(BufferOf(before, topic), cutoff);
  }

  // ----- the bus

  class Bus {
    var listeners: map<Topic, set<Listener>>
    var buffers: map<Topic, seq<Buffered>>
    var seqCounter: nat

    ghost var history: seq<Published>
    ghost var clock: int

    ghost predicate Valid()
      reads this
    {
      && seqCounter == |history|
      && Timely(history, clock)
      && Faithful(buffers, history, clock)
      && (forall topic :: topic in listeners ==> listeners[topic] != {})
    }

    constructor ()
      ensures Valid() && history == []
    {
      listeners, buffers, seqCounter := map[], map[], 0;
      history, clock := [], 0;
    }

    method Subscribe(topic: Topic, listener: Listener)
      requires Valid()
      modifies this`listeners
      ensures Valid() && topic in listeners && listener in listeners[topic]
      ensures listeners == old(listeners)[topic := (if topic in old(listeners) then old(listeners)[topic] else {}) + {listener}]
    {
      if topic !in listeners {
        listeners := listeners[topic := {}];
      }
      listeners := listeners[topic := listeners[topic] + {listener}];
    }

    method Unsubscribe(topic: Topic, listener: Listener)
      requires Valid()
      modifies this`listeners
      ensures Valid() && (topic in listeners ==> listener !in listeners[topic])
      ensures forall t :: t != topic ==> (t in listeners <==> t in old(listeners)) && (t in listeners ==> listeners[t] == old(listeners)[t])
    {
      if topic in listeners {
        listeners := listeners[topic := listeners[topic] - {listener}];
        if listeners[topic] == {} {
          listeners := listeners - {topic};
        }
      }
    }

    /** Publish a frame: its number, and the listeners it was handed to. */
    method Publish(topic: Topic, frame: Frame, now: int) returns (seq_: nat, heard: set<Listener>)
      requires Valid() && clock <= now
      modifies this`buffers, this`seqCounter, this`history, this`clock
      ensures Valid() && clock == now
      ensures seq_ == old(seqCounter) + 1 && seqCounter == seq_
      ensures history == old(history) + [Published(topic, Buffered(seq_, frame, now))]
      ensures heard == if topic in listeners then listeners[topic] else {}
    {
      ghost var before, was := buffers, history;
      seqCounter := seqCounter + 1;
      seq_ := seqCounter;
      var entry := Buffered(seq_, frame, now);
      Remember(topic, entry);
      history := history + [Published(topic, entry)];
      PublishKeeps(before, was, topic, entry, clock, now);
      clock := now;
      heard := if topic in listeners then listeners[topic] else {};
    }

    /** `buffer`: deltas are not kept; of the rest, the newest. */
    method Remember(topic: Topic, entry: Buffered)
      modifies this`buffers
      ensures buffers == Remembered(old(buffers), topic, entry)
    {
      if entry.frame.delta {
        return;
      }
      if topic !in buffers {
        buffers := buffers[topic := []];
      }
      var buffer := buffers[topic] + [entry];
      if |buffer| > REPLAY_BUFFER_SIZE {
        buffer := buffer[|buffer| - REPLAY_BUFFER_SIZE..];
      }
      buffers := buffers[topic := buffer];
    }

    /** Whatever was swept or evicted, the answer is what the history owes. */
    method Replay(topic: Topic, afterSeq: int, now: int) returns (missed: seq<(nat, Frame)>)
      requires Valid() && clock <= now
      ensures var owed := Owed(history, topic, afterSeq, now);
              |missed| == |owed| && forall i :: 0 <= i < |missed| ==> missed[i] == (owed[i].seq_, owed[i].frame)
    {
      var buffer := BufferOf(buffers, topic);
      LaterRefines(buffer, FramesOf(history, topic), clock, now);
      RefinedReplay(buffer, FramesOf(history, topic), afterSeq, now);
      var recent := Fresh(buffer, afterSeq, now - REPLAY_MAX_AGE_MS);
      missed := seq(|recent|, i requires 0 <= i < |recent| => (recent[i].seq_, recent[i].frame));
    }

    /** Drop what is too old, and whole buffers nobody listens to. */
    method Sweep(now: int)
      requires Valid() && clock <= now
      modifies this`buffers, this`clock
      ensures Valid() && clock == now
      ensures forall t :: BufferOf(buffers, t) == Kept(BufferOf(old(buffers), t), now - REPLAY_MAX_AGE_MS)
      ensures forall t :: t in buffers <==> t in old(buffers) && (BufferOf(buffers, t) != [] || t in listeners)
    {
      hide Refines;
      hide Kept;
      ghost var before := buffers;
      DropOld(now - REPLAY_MAX_AGE_MS);
      SweepKeeps(before, buffers, history, clock, now);
      clock := now;
    }

    method DropOld(cutoff: int)
      modifies this`buffers
      ensures SweptBut(old(buffers), buffers, {}, listeners.Keys, cutoff)
    {
      hide SweptBut;
      ghost var before, heard := buffers, listeners.Keys;
      var topics := buffers.Keys;
      SweepStarts(buffers, heard, cutoff);
      while topics != {}
        invariant SweptBut(before, buffers, topics, heard, cutoff)
      {
        var topic :| topic in topics;
        SweepStep(before, buffers, topics, heard, cutoff, topic);
        var kept := Kept(buffers[topic], cutoff);
        if |kept| == 0 && topic !in listeners {
          buffers := buffers - {topic};
        } else {
          buffers := buffers[topic := kept];
        }
        topics := topics - {topic};
      }
    }
  }

  // ----- a client that reconnects

  /** Everything published on a topic, deltas included: what a listener is handed. */
  function LiveOf(history: seq<Published>, topic: Topic): seq<Buffered> {
    if history == [] then []
    else
      var last := history[|history| - 1];
      LiveOf(history[..|history| - 1], topic) + if last.topic == topic then [last.entry] else []
  }

  lemma {:induction false} LiveAppend(history: seq<Published>, more: seq<Published>, topic: Topic)
    ensures LiveOf(history + more, topic) == LiveOf(history, topic) + LiveOf(more, topic)
  {
    if more == [] {
      assert history + more == history;
    } else {
      var init := more[..|more| - 1];
      assert (history + more)[..|history + more| - 1] == history + init;
      LiveAppend(history, init, topic);
    }
  }

  lemma {:induction false} LiveInOrder(history: seq<Published>, topic: Topic, now: int)
    requires Timely(history, now)
    ensures InOrder(LiveOf(history, topic), now, |history|)
  {
    if history != [] {
      var init := history[..|history| - 1];
      var last := history[|history| - 1].entry;
      assert forall i :: 0 <= i < |init| ==> init[i] == history[i];
      LiveInOrder(init, topic, last.at);
    }
  }

  /** Live frames are the entries published on the topics, deltas included, and those alone. */
  lemma {:induction false} LiveAreTheTopics(history: seq<Published>, topics: set<Topic>, e: Buffered)
    ensures e in LiveIn(history, topics) <==>
            exists i :: 0 <= i < |history| && history[i].topic in topics && history[i].entry == e
  {
    if history != [] {
      var n := |history| - 1;
      var init := history[..n];
      LiveAreTheTopics(init, topics, e);
      if i :| 0 <= i < |history| && history[i].topic in topics && history[i].entry == e {
        assert i < n ==> init[i] == history[i];
      }
    }
  }

  lemma {:induction false} LiveInRises(history: seq<Published>, topics: set<Topic>, now: int)
    requires Timely(history, now)
    ensures InOrder(LiveIn(history, topics), now, |history|)
  {
    if history != [] {
      var init := history[..|history| - 1];
      var last := history[|history| - 1].entry;
      assert forall i :: 0 <= i < |init| ==> init[i] == history[i];
      LiveInRises(init, topics, last.at);
    }
  }

  /** Live frames are numbered after everything that was replayed. */
  lemma {:induction false} LiveIsLater(history: seq<Published>, more: seq<Published>, topic: Topic, e: Buffered, later: int)
    requires Timely(history + more, later) && e in LiveOf(more, topic)
    ensures e.seq_ > |history|
  {
    var init, last := more[..|more| - 1], more[|more| - 1];
    assert last == (history + more)[|history| + |more| - 1];
    if e in LiveOf(init, topic) {
      assert forall i :: 0 <= i < |history + init| ==> (history + init)[i] == (history + more)[i];
      LiveIsLater(history, init, topic, e, later);
    }
  }

  /** What a client sees that has a replay and then listens: never the same number
      twice and never out of order; and of its topic every later frame, deltas
      included, and of the earlier ones exactly those still in the window and past
      its cursor. */
  lemma ReconnectIsSeamless(history: seq<Published>, more: seq<Published>, topic: Topic, afterSeq: int, now: int, later: int)
    requires Timely(history, now) && Timely(history + more, later)
    ensures var seen := Owed(history, topic, afterSeq, now) + LiveOf(more, topic);
            forall i, j :: 0 <= i < j < |seen| ==> seen[i].seq_ < seen[j].seq_
    ensures var seen := Owed(history, topic, afterSeq, now) + LiveOf(more, topic);
            forall e :: e in seen <==>
              if e.seq_ > |history| then e in LiveOf(history + more, topic)
              else e.seq_ > afterSeq && e.at >= now - REPLAY_MAX_AGE_MS && e in Newest(FramesOf(history, topic))
  {
    var frames, live := FramesOf(history, topic), LiveOf(more, topic);
    var owed := Owed(history, topic, afterSeq, now);
    FramesInOrder(history, topic, now);
    LiveInOrder(history, topic, now);
    LiveInOrder(history + more, topic, later);
    LiveAppend(history, more, topic);
    FreshShape(Newest(frames), afterSeq, now - REPLAY_MAX_AGE_MS, now, |history|);
    forall e | e in live ensures e.seq_ > |history| {
      LiveIsLater(history, more, topic, e, later);
    }
    SeenInOrder(owed, LiveOf(history, topic), live, now, later, |history|, |history + more|);
    forall e | e in Newest(frames) || e in LiveOf(history, topic) ensures e.seq_ <= |history| {
    }
  }

  lemma SeenInOrder(owed: seq<Buffered>, frames: seq<Buffered>, live: seq<Buffered>, now: int, later: int,
                    counter: nat, total: nat)
    requires InOrder(owed, now, counter) && InOrder(frames + live, later, total)
    requires forall e :: e in live ==> e.seq_ > counter
    ensures var seen := owed + live; forall i, j :: 0 <= i < j < |seen| ==> seen[i].seq_ < seen[j].seq_
  {
    var seen := owed + live;
    forall i, j | 0 <= i < j < |seen| ensures seen[i].seq_ < seen[j].seq_ {
      if |owed| <= i {
        assert seen[i] == (frames + live)[|frames| + i - |owed|];
        assert seen[j] == (frames + live)[|frames| + j - |owed|];
      } else if |owed| <= j {
        assert seen[j] in live;
      }
    }
  }

  lemma {:induction false} FreshShape(frames: seq<Buffered>, afterSeq: int, cutoff: int, now: int, counter: nat)
    requires InOrder(frames, now, counter)
    ensures var recent := Fresh(frames, afterSeq, cutoff);
            && InOrder(recent, now, counter)
            && (forall e :: e in recent <==> e in frames && e.seq_ > afterSeq && e.at >= cutoff)
  {
    if frames != [] {
      hide InOrder;
      var first, rest := frames[0], frames[1..];
      assert frames == [first] + rest;
      RestIsLater(frames, now, counter);
      FreshShape(rest, afterSeq, cutoff, now, counter);
      var recent := Fresh(rest, afterSeq, cutoff);
      AheadOfAll(first, recent, now, counter);
    }
  }

  lemma RestIsLater(frames: seq<Buffered>, now: int, counter: nat)
    requires InOrder(frames, now, counter) && frames != []
    ensures InOrder(frames[1..], now, counter) && frames[0].at <= now && 1 <= frames[0].seq_ <= counter
    ensures forall e :: e in frames[1..] ==> frames[0].seq_ < e.seq_ && frames[0].at <= e.at
  {
    var rest := frames[1..];
    forall e | e in rest ensures frames[0].seq_ < e.seq_ && frames[0].at <= e.at {
      var k :| 0 <= k < |rest| && rest[k] == e;
      assert frames[k + 1] == e;
    }
  }

  lemma AheadOfAll(first: Buffered, rest: seq<Buffered>, now: int, counter: nat)
    requires InOrder(rest, now, counter) && first.at <= now && 1 <= first.seq_ <= counter
    requires forall e :: e in rest ==> first.seq_ < e.seq_ && first.at <= e.at
    ensures InOrder([first] + rest, now, counter)
  {
    var all := [first] + rest;
    forall i, j | 0 <= i < j < |all| ensures all[i].at <= all[j].at && all[i].seq_ < all[j].seq_ {
      assert all[j] == rest[j - 1];
      assert rest[j - 1] in rest;
    }
  }

  // ----- the client's side of a subscription

  datatype Publication = Publication(topic: Topic, frame: Frame, at: int)

  predicate ClockRises(publications: seq<Publication>, now: int) {
    && (forall i :: 0 <= i < |publications| ==> now <= publications[i].at)
    && (forall i, j :: 0 <= i < j < |publications| ==> publications[i].at <= publications[j].at)
  }

  /** The entries a run of publications makes, numbered on from `counter`. */
  function Entries(publications: seq<Publication>, counter: nat): (more: seq<Published>)
    ensures |more| == |publications|
  {
    seq(|publications|, i requires 0 <= i < |publications| =>
      Published(publications[i].topic, Buffered(counter + i + 1, publications[i].frame, publications[i].at)))
  }

  function Pairs(entries: seq<Buffered>): (pairs: seq<(nat, Frame)>)
    ensures |pairs| == |entries|
  {
    seq(|entries|, i requires 0 <= i < |entries| => (entries[i].seq_, entries[i].frame))
  }

  const MAX_TOPICS := 64

  /** The topics a socket goes on to subscribe to, up to a limit, beside those it holds. */
  function NewTopics(topics: seq<Topic>, held: set<Topic>): seq<Topic> {
    if topics == [] then []
    else if topics[0] in held then NewTopics(topics[1..], held)
    else if |held| >= MAX_TOPICS then []
    else [topics[0]] + NewTopics(topics[1..], held + {topics[0]})
  }

  ghost predicate NoRepeats(topics: seq<Topic>) {
    forall i, j :: 0 <= i < j < |topics| ==> topics[i] != topics[j]
  }

  /** The request is served up to place `n`: what stands before it is held, and what is new
      in it comes in the order of the request. */
  ghost predicate ServedUpTo(topics: seq<Topic>, held: set<Topic>, added: seq<Topic>, n: nat) {
    && n <= |topics|
    && (forall t :: t in added ==> t in topics[..n] && t !in held)
    && (forall t :: t in topics[..n] ==> t in held || t in added)
    && AsAsked(topics, added, n)
  }

  ghost predicate AsAsked(topics: seq<Topic>, added: seq<Topic>, n: nat)
    requires n <= |topics|
  {
    forall i, j, q :: 0 <= i < j < |added| && 0 <= q < n && topics[q] == added[j] ==> added[i] in topics[..q]
  }

  /** A socket takes up the topics it does not hold yet, each once and in the order asked
      for, and leaves one out only when it holds 64. */
  lemma {:induction false} NewTopicsAreServed(topics: seq<Topic>, held: set<Topic>) returns (n: nat)
    ensures var added := NewTopics(topics, held);
            && NoRepeats(added) && ServedUpTo(topics, held, added, n)
            && (added != [] ==> |held| + |added| <= 64)
            && (n < |topics| ==> |held| + |added| >= 64 && topics[n] !in held && topics[n] !in added)
    decreases |topics|
  {
    n := 0;
    if topics != [] {
      var first, rest := topics[0], topics[1..];
      if first in held {
        var m := NewTopicsAreServed(rest, held);
        n := m + 1;
        ServeHeld(topics, held, NewTopics(rest, held), m);
      } else if |held| < MAX_TOPICS {
        var m := NewTopicsAreServed(rest, held + {first});
        n := m + 1;
        ServeNew(topics, held, NewTopics(rest, held + {first}), m);
      }
    }
  }

  lemma TakeOneMore(topics: seq<Topic>, m: nat)
    requires topics != [] && m < |topics|
    ensures forall t :: t in topics[..m + 1] <==> t == topics[0] || t in topics[1..][..m]
  {
    assert topics[..m + 1] == [topics[0]] + topics[1..][..m];
  }

  lemma ServeHeld(topics: seq<Topic>, held: set<Topic>, added: seq<Topic>, m: nat)
    requires topics != [] && topics[0] in held && ServedUpTo(topics[1..], held, added, m)
    ensures ServedUpTo(topics, held, added, m + 1)
  {
    TakeOneMore(topics, m);
    AskedLater(topics, added, m);
    hide AsAsked;
  }

  lemma AskedLater(topics: seq<Topic>, added: seq<Topic>, m: nat)
    requires topics != [] && m < |topics| && AsAsked(topics[1..], added, m) && topics[0] !in added
    ensures AsAsked(topics, added, m + 1)
  {
    forall i, j, q | 0 <= i < j < |added| && 0 <= q < m + 1 && topics[q] == added[j] ensures added[i] in topics[..q] {
      assert added[j] in added && q > 0;
      assert topics[1..][q - 1] == topics[q];
      TakeOneMore(topics, q - 1);
    }
  }

  lemma ServeNew(topics: seq<Topic>, held: set<Topic>, rest: seq<Topic>, m: nat)
    requires topics != [] && topics[0] !in held && ServedUpTo(topics[1..], held + {topics[0]}, rest, m)
    requires NoRepeats(rest)
    ensures ServedUpTo(topics, held, [topics[0]] + rest, m + 1) && NoRepeats([topics[0]] + rest)
  {
    TakeOneMore(topics, m);
    AskedFirst(topics, rest, m);
    FirstIsNew(topics[0], rest);
    hide AsAsked;
    hide NoRepeats;
  }

  lemma AskedFirst(topics: seq<Topic>, rest: seq<Topic>, m: nat)
    requires topics != [] && m < |topics| && AsAsked(topics[1..], rest, m) && topics[0] !in rest
    ensures AsAsked(topics, [topics[0]] + rest, m + 1)
  {
    var added := [topics[0]] + rest;
    forall i, j, q | 0 <= i < j < |added| && 0 <= q < m + 1 && topics[q] == added[j] ensures added[i] in topics[..q] {
      assert added[j] == rest[j - 1] && rest[j - 1] in rest;
      assert q > 0 && topics[1..][q - 1] == topics[q];
      TakeOneMore(topics, q - 1);
      if i > 0 {
        assert added[i] == rest[i - 1];
      }
    }
  }

  lemma FirstIsNew(first: Topic, rest: seq<Topic>)
    requires NoRepeats(rest) && first !in rest
    ensures NoRepeats([first] + rest)
  {
    var added := [first] + rest;
    forall i, j | 0 <= i < j < |added| ensures added[i] != added[j] {
      assert added[j] == rest[j - 1] && rest[j - 1] in rest;
    }
  }

  /** The replays of several topics, one after the other, from one cursor. */
  function Replays(history: seq<Published>, topics: seq<Topic>, since: Option<nat>, now: int): seq<Buffered> {
    if topics == [] || since == None then []
    else
      Replays(history, topics[..|topics| - 1], since, now)
      + Owed(history, topics[|topics| - 1], since.value, now)
  }

  /** Everything published on some of the topics, deltas included, in publication order. */
  function LiveIn(history: seq<Published>, topics: set<Topic>): seq<Buffered> {
    if history == [] then []
    else
      var last := history[|history| - 1];
      LiveIn(history[..|history| - 1], topics) + if last.topic in topics then [last.entry] else []
  }

  function TopicsOf(topics: seq<Topic>): set<Topic> {
    set t | t in topics
  }

  /** The client's subscription request as the socket serves it, topic by topic. */
  method Subscriptions(bus: Bus, topics: seq<Topic>, held: set<Topic>, listener: Listener, since: Option<nat>, now: int)
    returns (sent: seq<(nat, Frame)>, holds: set<Topic>)
    requires bus.Valid() && bus.clock <= now && Listens(bus.listeners, listener, held)
    modifies bus`listeners
    ensures bus.Valid() && Listens(bus.listeners, listener, holds)
    ensures sent == Pairs(Replays(bus.history, NewTopics(topics, held), since, now))
    ensures holds == held + TopicsOf(NewTopics(topics, held))
  {
    hide Timely;
    hide Faithful;
    hide Owed;
    hide Pairs;
    hide Replays;
    hide NewTopics;
    hide TopicsOf;
    hide Listens;
    sent, holds := [], held;
    ghost var added: seq<Topic> := [];
    NothingReplayed(bus.history, topics, held, since, now);
    var k, full := 0, false;
    while k < |topics| && !full
      invariant k <= |topics| && bus.Valid() && Listens(bus.listeners, listener, holds)
      invariant NewTopics(topics, held) == added + if full then [] else NewTopics(topics[k..], holds)
      invariant sent == Pairs(Replays(bus.history, added, since, now)) && holds == held + TopicsOf(added)
      decreases |topics| - k, !full
    {
      NextTopic(topics, k, holds);
      if topics[k] in holds {
        k := k + 1;
      } else if |holds| >= MAX_TOPICS {
        full := true;
        assert added + [] == added;
      } else {
        var missed := SubscribeOne(bus, topics[k], holds, listener, since, now);
        MoreReplayed(bus.history, added, topics[k], since, now);
        MoreTopics(added, topics[k], topics[k + 1..], holds + {topics[k]});
        sent := sent + missed;
        holds := holds + {topics[k]};
        added := added + [topics[k]];
        k := k + 1;
      }
    }
    NoTopicsLeft(topics, holds);
    assert added + [] == added;
  }

  /** One topic: the replay first and then the listener. */
  method SubscribeOne(bus: Bus, topic: Topic, held: set<Topic>, listener: Listener, since: Option<nat>, now: int)
    returns (missed: seq<(nat, Frame)>)
    requires bus.Valid() && bus.clock <= now && Listens(bus.listeners, listener, held)
    modifies bus`listeners
    ensures bus.Valid() && Listens(bus.listeners, listener, held + {topic})
    ensures missed == if since.Some? then Pairs(Owed(bus.history, topic, since.value, now)) else []
  {
    hide Timely;
    hide Faithful;
    hide Owed;
    hide Pairs;
    missed := [];
    if since.Some? {
      missed := bus.Replay(topic, since.value, now);
      ReplayedPairs(missed, Owed(bus.history, topic, since.value, now));
    }
    bus.Subscribe(topic, listener);
  }

  lemma MoreTopics(added: seq<Topic>, topic: Topic, rest: seq<Topic>, holds: set<Topic>)
    ensures TopicsOf(added + [topic]) == TopicsOf(added) + {topic}
    ensures added + ([topic] + NewTopics(rest, holds)) == (added + [topic]) + NewTopics(rest, holds)
  {
    hide NewTopics;
  }

  predicate Listens(listeners: map<Topic, set<Listener>>, listener: Listener, topics: set<Topic>) {
    forall t :: t in topics ==> t in listeners && listener in listeners[t]
  }

  lemma NothingReplayed(history: seq<Published>, topics: seq<Topic>, held: set<Topic>, since: Option<nat>, now: int)
    ensures Pairs(Replays(history, [], since, now)) == [] && TopicsOf([]) == {}
    ensures NewTopics(topics, held) == [] + NewTopics(topics[0..], held)
  {
    assert topics[0..] == topics;
    assert Replays(history, [], since, now) == [];
    assert [] + NewTopics(topics, held) == NewTopics(topics, held);
  }

  lemma NextTopic(topics: seq<Topic>, k: nat, held: set<Topic>)
    requires k < |topics|
    ensures NewTopics(topics[k..], held) ==
            if topics[k] in held then NewTopics(topics[k + 1..], held)
            else if |held| >= MAX_TOPICS then []
            else [topics[k]] + NewTopics(topics[k + 1..], held + {topics[k]})
  {
    assert topics[k..][0] == topics[k] && topics[k..][1..] == topics[k + 1..];
  }

  lemma NoTopicsLeft(topics: seq<Topic>, held: set<Topic>)
    ensures NewTopics(topics[|topics|..], held) == []
  {
  }

  lemma MoreReplayed(history: seq<Published>, added: seq<Topic>, topic: Topic, since: Option<nat>, now: int)
    ensures Pairs(Replays(history, added + [topic], since, now)) ==
            Pairs(Replays(history, added, since, now))
            + if since.Some? then Pairs(Owed(history, topic, since.value, now)) else []
  {
    hide Owed;
    assert (added + [topic])[..|added|] == added;
  }

  /** A client that reconnects: the replays of its topics, and then whatever is
      published on them. With one topic, what it is sent is what
      `ReconnectIsSeamless` is about. */
  method Reconnect(bus: Bus, topics: seq<Topic>, listener: Listener, since: Option<nat>, now: int,
                   publications: seq<Publication>)
    returns (sent: seq<(nat, Frame)>)
    requires bus.Valid() && bus.clock <= now && ClockRises(publications, now)
    modifies bus
    ensures bus.Valid() && bus.history == old(bus.history) + Entries(publications, |old(bus.history)|)
    ensures var added := NewTopics(topics, {});
            sent == Pairs(Replays(old(bus.history), added, since, now)
                          + LiveIn(Entries(publications, |old(bus.history)|), TopicsOf(added)))
  {
    hide Timely;
    hide Faithful;
    hide Replays;
    hide NewTopics;
    hide LiveIn;
    hide Pairs;
    ghost var before := bus.history;
    ghost var replayed := Replays(before, NewTopics(topics, {}), since, now);
    ghost var more := Entries(publications, |before|);
    var holds;
    sent, holds := Subscriptions(bus, topics, {}, listener, since, now);
    NothingLive(replayed, more, holds);
    for k := 0 to |publications|
      invariant bus.Valid() && bus.history == before + more[..k] && Listens(bus.listeners, listener, holds)
      invariant k < |publications| ==> bus.clock <= publications[k].at
      invariant sent == Pairs(replayed + LiveIn(more[..k], holds))
    {
      var heard := Hear(bus, holds, listener, publications[k]);
      PairsGrow(replayed, more, k, holds);
      sent := sent + heard;
      assert before + more[..k + 1] == before + more[..k] + [more[k]];
    }
    assert more[..|publications|] == more;
    assert holds == TopicsOf(NewTopics(topics, {}));
  }

  /** One publication, and what of it reaches the socket. */
  method Hear(bus: Bus, holds: set<Topic>, listener: Listener, p: Publication) returns (heard: seq<(nat, Frame)>)
    requires bus.Valid() && bus.clock <= p.at && Listens(bus.listeners, listener, holds)
    modifies bus`buffers, bus`seqCounter, bus`history, bus`clock
    ensures bus.Valid() && bus.clock == p.at
    ensures var entry := Buffered(|old(bus.history)| + 1, p.frame, p.at);
            && bus.history == old(bus.history) + [Published(p.topic, entry)]
            && heard == if p.topic in holds then [(entry.seq_, entry.frame)] else []
  {
    hide Timely;
    hide Faithful;
    var seq_, hearers := bus.Publish(p.topic, p.frame, p.at);
    heard := if p.topic in holds && listener in hearers then [(seq_, p.frame)] else [];
  }

  lemma ReplayedPairs(sent: seq<(nat, Frame)>, owed: seq<Buffered>)
    requires |sent| == |owed| && forall i :: 0 <= i < |sent| ==> sent[i] == (owed[i].seq_, owed[i].frame)
    ensures sent == Pairs(owed)
  {
  }

  lemma NothingLive(replayed: seq<Buffered>, more: seq<Published>, topics: set<Topic>)
    ensures replayed + LiveIn(more[..0], topics) == replayed
  {
  }

  /** One more entry, one more pair if it is one of the topics'. */
  lemma PairsGrow(replayed: seq<Buffered>, more: seq<Published>, k: nat, topics: set<Topic>)
    requires k < |more|
    ensures Pairs(replayed + LiveIn(more[..k + 1], topics)) ==
            Pairs(replayed + LiveIn(more[..k], topics))
            + if more[k].topic in topics then [(more[k].entry.seq_, more[k].entry.frame)] else []
  {
    var shorter := LiveIn(more[..k], topics);
    assert more[..k + 1][..k] == more[..k];
    if more[k].topic in topics {
      assert replayed + (shorter + [more[k].entry]) == (replayed + shorter) + [more[k].entry];
    } else {
      assert shorter + [] == shorter;
    }
  }

  /** On one topic, what is published on some of the topics is what is published on it. */
  lemma {:induction false} OneTopicLive(history: seq<Published>, topic: Topic)
    ensures LiveIn(history, {topic}) == LiveOf(history, topic)
  {
    if history != [] {
      OneTopicLive(history[..|history| - 1], topic);
    }
  }

  // ----- several topics under one cursor

  predicate Rising(entries: seq<Buffered>) {
    forall i, j :: 0 <= i < j < |entries| ==> entries[i].seq_ < entries[j].seq_
  }

  predicate Precedes(a: seq<Buffered>, b: seq<Buffered>) {
    forall e, f :: e in a && f in b ==> e.seq_ < f.seq_
  }

  /** Every frame owed on an earlier topic was published before any owed on a later one. */
  ghost predicate InTurn(history: seq<Published>, topics: seq<Topic>, afterSeq: nat, now: int) {
    forall i, j :: 0 <= i < j < |topics| ==>
      Precedes(Owed(history, topics[i], afterSeq, now), Owed(history, topics[j], afterSeq, now))
  }

  lemma {:induction false} ReplayedOnSome(history: seq<Published>, topics: seq<Topic>, afterSeq: nat, now: int, e: Buffered)
    ensures e in Replays(history, topics, Some(afterSeq), now) <==>
            exists i :: 0 <= i < |topics| && e in Owed(history, topics[i], afterSeq, now)
  {
    hide Owed;
    if topics != [] {
      var n := |topics| - 1;
      ReplayedOnSome(history, topics[..n], afterSeq, now, e);
      if i :| 0 <= i < |topics| && e in Owed(history, topics[i], afterSeq, now) {
        assert i < n ==> topics[..n][i] == topics[i];
      }
    }
  }

  lemma OwedShape(history: seq<Published>, topic: Topic, afterSeq: int, now: int)
    requires Timely(history, now)
    ensures var owed := Owed(history, topic, afterSeq, now);
            Rising(owed) && forall e :: e in owed <==>
              e in Newest(FramesOf(history, topic)) && e.seq_ > afterSeq && e.at >= now - REPLAY_MAX_AGE_MS
  {
    FramesInOrder(history, topic, now);
    FreshShape(Newest(FramesOf(history, topic)), afterSeq, now - REPLAY_MAX_AGE_MS, now, |history|);
  }

  lemma RisingParts(a: seq<Buffered>, b: seq<Buffered>)
    ensures Rising(a + b) <==> Rising(a) && Rising(b) && Precedes(a, b)
  {
    var all := a + b;
    if Rising(all) {
      forall e, f | e in a && f in b ensures e.seq_ < f.seq_ {
        var i :| 0 <= i < |a| && a[i] == e;
        var j :| 0 <= j < |b| && b[j] == f;
        assert all[i] == e && all[|a| + j] == f;
      }
      assert forall i :: 0 <= i < |a| ==> all[i] == a[i];
      forall i, j | 0 <= i < j < |b| ensures b[i].seq_ < b[j].seq_ {
        assert all[|a| + i] == b[i] && all[|a| + j] == b[j];
      }
    }
  }

  /** The replays of several topics come in publication order if and only if the topics'
      owed frames lie one topic after the other. */
  lemma {:induction false} ReplaysRiseIffInTurn(history: seq<Published>, topics: seq<Topic>, afterSeq: nat, now: int)
    requires Timely(history, now)
    ensures Rising(Replays(history, topics, Some(afterSeq), now)) <==> InTurn(history, topics, afterSeq, now)
  {
    if topics != [] {
      hide Owed;
      hide Rising;
      var n := |topics| - 1;
      var init, owed := topics[..n], Owed(history, topics[n], afterSeq, now);
      var before := Replays(history, init, Some(afterSeq), now);
      ReplaysRiseIffInTurn(history, init, afterSeq, now);
      OwedShape(history, topics[n], afterSeq, now);
      RisingParts(before, owed);
      LastInTurn(history, topics, afterSeq, now);
    } else {
      assert Rising([]);
    }
  }

  lemma LastInTurn(history: seq<Published>, topics: seq<Topic>, afterSeq: nat, now: int)
    requires topics != []
    ensures var n := |topics| - 1;
            InTurn(history, topics, afterSeq, now) <==>
              InTurn(history, topics[..n], afterSeq, now)
              && Precedes(Replays(history, topics[..n], Some(afterSeq), now), Owed(history, topics[n], afterSeq, now))
  {
    hide Owed;
    hide Replays;
    var n := |topics| - 1;
    var init := topics[..n];
    forall e ensures e in Replays(history, init, Some(afterSeq), now) <==>
                     exists i :: 0 <= i < n && e in Owed(history, init[i], afterSeq, now)
    {
      ReplayedOnSome(history, init, afterSeq, now, e);
    }
    assert forall i :: 0 <= i < n ==> init[i] == topics[i];
  }

  /** The cursor of a client that was sent these frames: the highest number it saw. */
  function Highest(sent: seq<Buffered>, cursor: nat): (high: nat)
    ensures high >= cursor && forall e :: e in sent ==> e.seq_ <= high
    ensures high == cursor || exists e :: e in sent && e.seq_ == high
  {
    if sent == [] then cursor
    else
      var last, high := sent[|sent| - 1], Highest(sent[..|sent| - 1], cursor);
      assert sent == sent[..|sent| - 1] + [last];
      if last.seq_ > high then last.seq_ else high
  }

  /** A frame that is still replayed to a client that comes back with a later cursor. */
  ghost predicate StillOwed(history: seq<Published>, topics: seq<Topic>, e: Buffered, cursor: nat, now: int) {
    exists i :: 0 <= i < |topics| && e in Owed(history, topics[i], cursor, now)
  }

  /** Cut off after any number of frames and back at once, a client is still owed all
      that it was not sent if and only if the replays rise: a later topic's frame with a
      number below one already sent is lost to it. */
  lemma CutsLoseNothingIffRising(history: seq<Published>, topics: seq<Topic>, afterSeq: nat, now: int)
    requires Timely(history, now)
    ensures var sent := Replays(history, topics, Some(afterSeq), now);
            (forall p, q :: 0 <= p <= q < |sent| ==>
               StillOwed(history, topics, sent[q], Highest(sent[..p], afterSeq), now))
            <==> Rising(sent)
  {
    hide Replays;
    hide Owed;
    hide StillOwed;
    var sent := Replays(history, topics, Some(afterSeq), now);
    forall p, q | 0 <= p <= q < |sent|
      ensures StillOwed(history, topics, sent[q], Highest(sent[..p], afterSeq), now) <==>
              sent[q].seq_ > Highest(sent[..p], afterSeq)
    {
      OwedAbove(history, topics, afterSeq, now, sent[q], Highest(sent[..p], afterSeq));
    }
    RisingIsAbove(sent, afterSeq);
    forall e | e in sent ensures e.seq_ > afterSeq {
      OwedAbove(history, topics, afterSeq, now, e, afterSeq);
      FreshIsOwed(history, topics, afterSeq, now, e);
    }
  }

  lemma FreshIsOwed(history: seq<Published>, topics: seq<Topic>, afterSeq: nat, now: int, e: Buffered)
    requires e in Replays(history, topics, Some(afterSeq), now)
    ensures StillOwed(history, topics, e, afterSeq, now)
  {
    ReplayedOnSome(history, topics, afterSeq, now, e);
  }

  lemma OwedAbove(history: seq<Published>, topics: seq<Topic>, afterSeq: nat, now: int, e: Buffered, cursor: nat)
    requires Timely(history, now) && e in Replays(history, topics, Some(afterSeq), now) && cursor >= afterSeq
    ensures StillOwed(history, topics, e, cursor, now) <==> e.seq_ > cursor
  {
    hide Owed;
    hide Newest;
    hide FramesOf;
    hide Timely;
    ReplayedOnSome(history, topics, afterSeq, now, e);
    var i :| 0 <= i < |topics| && e in Owed(history, topics[i], afterSeq, now);
    OwedShape(history, topics[i], afterSeq, now);
    OwedShape(history, topics[i], cursor, now);
    if j :| 0 <= j < |topics| && e in Owed(history, topics[j], cursor, now) {
      OwedShape(history, topics[j], cursor, now);
    }
  }

  lemma RisingIsAbove(sent: seq<Buffered>, afterSeq: nat)
    ensures (forall e :: e in sent ==> e.seq_ > afterSeq) ==>
              ((forall p, q :: 0 <= p <= q < |sent| ==> sent[q].seq_ > Highest(sent[..p], afterSeq)) <==> Rising(sent))
  {
    if (forall e :: e in sent ==> e.seq_ > afterSeq) && Rising(sent) {
      forall p, q | 0 <= p <= q < |sent| ensures sent[q].seq_ > Highest(sent[..p], afterSeq) {
        var high := Highest(sent[..p], afterSeq);
        if e :| e in sent[..p] && e.seq_ == high {
          var i :| 0 <= i < p && sent[i] == e;
        }
      }
    }
    if forall p, q :: 0 <= p <= q < |sent| ==> sent[q].seq_ > Highest(sent[..p], afterSeq) {
      forall i, j | 0 <= i < j < |sent| ensures sent[i].seq_ < sent[j].seq_ {
        assert sent[i] == sent[..i + 1][i];
        assert sent[j].seq_ > Highest(sent[..i + 1], afterSeq);
      }
    }
  }

  lemma FramesStep(history: seq<Published>, p: Published, topic: Topic)
    ensures FramesOf(history + [p], topic) ==
            FramesOf(history, topic) + if p.topic == topic && !p.entry.frame.delta then [p.entry] else []
  {
    assert (history + [p])[..|history|] == history;
  }

  lemma OneFresh(e: Buffered, now: int)
    requires e.seq_ > 0 && e.at == now
    ensures Fresh(Newest([e]), 0, now - REPLAY_MAX_AGE_MS) == [e]
  {
    assert [e][1..] == [];
  }

  /** Two topics whose frames alternate, asked for in the other order: the replays do not
      rise, and a client cut off between them never gets the earlier frame. */
  lemma CutBetweenTopicsLoses(a: Topic, b: Topic, frame: Frame, now: int)
    requires a != b && !frame.delta
    ensures var history := [Published(b, Buffered(1, frame, now)), Published(a, Buffered(2, frame, now))];
            && Timely(history, now)
            && Replays(history, [a, b], Some(0), now) == [Buffered(2, frame, now), Buffered(1, frame, now)]
            && Highest(Replays(history, [a], Some(0), now), 0) == 2
            && !StillOwed(history, [a, b], Buffered(1, frame, now), 2, now)
  {
    hide FramesOf;
    hide Fresh;
    hide Newest;
    hide StillOwed;
    hide Timely;
    hide Replays;
    hide Highest;
    var e, f := Buffered(1, frame, now), Buffered(2, frame, now);
    var history := [Published(b, e), Published(a, f)];
    TwoTimely(Published(b, e), Published(a, f), now);
    TwoTopics(a, b, e, f);
    OneFresh(e, now);
    OneFresh(f, now);
    assert Owed(history, a, 0, now) == [f] && Owed(history, b, 0, now) == [e];
    hide Owed;
    TwoReplays(history, a, b, now);
    assert Replays(history, [a, b], Some(0), now) == [f] + [e] == [f, e];
    OwedAbove(history, [a, b], 0, now, e, 2);
  }

  lemma TwoTimely(p: Published, q: Published, now: int)
    requires p.entry.seq_ == 1 && q.entry.seq_ == 2 && p.entry.at == now == q.entry.at
    ensures Timely([p, q], now)
  {
  }

  lemma TwoTopics(a: Topic, b: Topic, e: Buffered, f: Buffered)
    requires a != b && !e.frame.delta && !f.frame.delta
    ensures var history := [Published(b, e), Published(a, f)];
            FramesOf(history, a) == [f] && FramesOf(history, b) == [e]
  {
    hide FramesOf;
    var none: seq<Published> := [];
    NoFrames(a);
    NoFrames(b);
    FramesStep(none, Published(b, e), a);
    FramesStep(none, Published(b, e), b);
    FramesStep([Published(b, e)], Published(a, f), a);
    FramesStep([Published(b, e)], Published(a, f), b);
    assert none + [Published(b, e)] == [Published(b, e)];
    assert [Published(b, e)] + [Published(a, f)] == [Published(b, e), Published(a, f)];
  }

  lemma NoFrames(topic: Topic)
    ensures FramesOf([], topic) == []
  {
  }

  lemma TwoReplays(history: seq<Published>, a: Topic, b: Topic, now: int)
    ensures var x, y := Owed(history, a, 0, now), Owed(history, b, 0, now);
            && Replays(history, [a], Some(0), now) == x && Replays(history, [a, b], Some(0), now) == x + y
            && (|x| == 1 && x[0].seq_ > 0 ==> Highest(x, 0) == x[0].seq_)
  {
    hide Owed;
    var x := Owed(history, a, 0, now);
    assert [a, b][..1] == [a] && [a][..0] == [] && [] + x == x;
    assert Replays(history, [], Some(0), now) == [];
    if |x| == 1 {
      assert x[..0] == [];
    }
  }
}
