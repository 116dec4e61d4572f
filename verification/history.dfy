/** The value side of the chat relay's per-room history: the message record,
    the capacity of a room's history, what one send does to a room's history
    and to the whole store, and a reference definition ("the latest
    Capacity messages") that the send is proved to agree with. */
module History {

  /** How many messages a room's history keeps. */
  const Capacity: nat := 50

  /** The server clock reading stamped on a message. The relay only carries
      it; it is never compared or ordered. */
  type Timestamp = nat

  /** One relayed message. `msg` and `iv` are opaque ciphertext material that
      the relay never looks into; `isFile` is carried through unchanged. */
  datatype ChatMessage = ChatMessage(user: string, msg: string, iv: string, isFile: bool, time: Timestamp)

  /** A room's history after one message is added to it: the message goes to
      the tail, and if the history has then grown past Capacity the head (the
      oldest message) is removed. Exactly one element is removed at most. */
  function Appended(h: seq<ChatMessage>, m: ChatMessage): (r: seq<ChatMessage>)
    // the history grows by one until it is full, then keeps its length
    ensures |r| == if |h| < Capacity then |h| + 1 else |h|
    // the new message is the newest one
    ensures r[|r| - 1] == m
    // what precedes it is the old history, minus its oldest entry when evicting
    ensures r[..|r| - 1] == h[|h| + 1 - |r|..]
    ensures |h| <= Capacity ==> |r| <= Capacity
  {
    var added := h + [m];
    if |added| > Capacity then added[1..] else added
  }

  /** Reference definition: the latest Capacity messages of `s`, oldest first. */
  function Window(s: seq<ChatMessage>): seq<ChatMessage>
  {
    if |s| <= Capacity then s else s[|s| - Capacity..]
  }

  /** A room's history after the messages of `ms` have been sent to it, one
      after the other. */
  function AfterAll(h: seq<ChatMessage>, ms: seq<ChatMessage>): seq<ChatMessage>
    decreases |ms|
  {
    if ms == [] then h else AfterAll(Appended(h, ms[0]), ms[1..])
  }

  /** On a history within capacity, one send is exactly "keep the latest
      Capacity messages of the history followed by the new one". */
  lemma AppendedIsWindow(h: seq<ChatMessage>, m: ChatMessage)
    requires |h| <= Capacity
    ensures Appended(h, m) == Window(h + [m])
  {
    if |h| == Capacity {
      assert (h + [m])[1..] == h[1..] + [m];
    }
  }

  /** A send slides the window: the history that kept the latest messages of
      `s` keeps, after `m` is sent, the latest messages of `s + [m]`. */
  lemma {:induction false} AppendedSlidesWindow(s: seq<ChatMessage>, m: ChatMessage)
    ensures Appended(Window(s), m) == Window(s + [m])
  {
    AppendedIsWindow(Window(s), m);
    if |s| > Capacity {
      var k := |s| - Capacity;
      assert Window(s) + [m] == (s + [m])[k..];
      assert Window(Window(s) + [m]) == (s + [m])[k + 1..];
    }
  }

  /** Whatever is sent, in whatever number, the history holds exactly the
      latest Capacity messages of everything sent, in sending order. */
  lemma {:induction false} AfterAllKeepsLatest(s: seq<ChatMessage>, ms: seq<ChatMessage>)
    ensures AfterAll(Window(s), ms) == Window(s + ms)
    decreases |ms|
  {
    if ms == [] {
      assert s + ms == s;
    } else {
      AppendedSlidesWindow(s, ms[0]);
      AfterAllKeepsLatest(s + [ms[0]], ms[1..]);
      assert s + [ms[0]] + ms[1..] == s + ms;
    }
  }

  /** A room that starts without history and receives the messages `ms` holds
      at most Capacity of them, the newest last; once more than Capacity have
      been sent the oldest ones were evicted first. */
  lemma HistoryFromEmpty(ms: seq<ChatMessage>)
    ensures AfterAll([], ms) == Window(ms)
    ensures |AfterAll([], ms)| == if |ms| <= Capacity then |ms| else Capacity
    ensures |ms| > Capacity ==> AfterAll([], ms)[0] == ms[|ms| - Capacity]
    ensures ms != [] ==> AfterAll([], ms)[|AfterAll([], ms)| - 1] == ms[|ms| - 1]
  {
    AfterAllKeepsLatest([], ms);
    assert [] + ms == ms;
  }

  /** The history a room holds: nothing when the room has no entry yet. */
  function Stored(hist: map<string, seq<ChatMessage>>, room: string): seq<ChatMessage>
  {
    if room in hist then hist[room] else []
  }

  /** Every room's history is within capacity. */
  ghost predicate Bounded(hist: map<string, seq<ChatMessage>>)
  {
    forall room :: room in hist ==> |hist[room]| <= Capacity
  }

  /** The whole history store after `m` is sent to `room`. */
  function Sent(hist: map<string, seq<ChatMessage>>, room: string, m: ChatMessage): (r: map<string, seq<ChatMessage>>)
    // the room now has an entry, and no other room appeared or changed
    ensures r.Keys == hist.Keys + {room}
    ensures forall other :: other in hist && other != room ==> r[other] == hist[other]
    // the new message is the room's newest
    ensures |r[room]| > 0 && r[room][|r[room]| - 1] == m
    // a room without history now holds the one new message
    ensures room !in hist ==> r[room] == [m]
    // below capacity nothing is evicted
    ensures room in hist && |hist[room]| < Capacity ==> r[room] == hist[room] + [m]
    // at capacity the oldest message is evicted and the length stays Capacity
    ensures room in hist && |hist[room]| == Capacity ==>
              r[room] == hist[room][1..] + [m] && |r[room]| == Capacity
    // the capacity bound is preserved
    ensures Bounded(hist) ==> Bounded(r)
  {
    hist[room := Appended(Stored(hist, room), m)]
  }
}
