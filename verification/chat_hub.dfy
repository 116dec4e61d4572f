/** The chat relay's hub: the process-wide per-room message history and the
    two calls that use it. Joining a room replays that room's history to the
    caller; sending a message stamps it, records it in the room's bounded
    history and fans it out to the room. */
module Hub {
  import opened History

  /** One object per process: it stands for the static store shared by every
      per-call hub instance, and constructing it means process start. */
  class ChatHub {
    /** Room name to that room's messages, oldest first. */
    var history: map<string, seq<ChatMessage>>

    /** The hub's invariant: no room holds more than Capacity messages. */
    ghost predicate Valid()
      reads this
    {
      Bounded(history)
    }

    /** The store starts out with no room at all. */
    constructor ()
      ensures history == map[]
      ensures Valid()
    {
      history := map[];
    }

    /** Records a message sent to `room` at time `now` and returns the
        message that is fanned out to every member of the room. */
    method SendMessage(room: string, user: string, msg: string, iv: string, isFile: bool, now: Timestamp)
      returns (delivered: ChatMessage)
      requires Valid()
      modifies this
      ensures Valid()
      ensures delivered == ChatMessage(user, msg, iv, isFile, now)
      ensures history == Sent(old(history), room, delivered)
      ensures room in history && history[room][|history[room]| - 1] == delivered
      ensures room !in old(history) ==> history[room] == [delivered]
      ensures room in old(history) && |old(history)[room]| < Capacity ==>
                history[room] == old(history)[room] + [delivered]
      ensures room in old(history) && |old(history)[room]| == Capacity ==>
                history[room] == old(history)[room][1..] + [delivered]
      ensures forall other :: other != room ==> Stored(history, other) == Stored(old(history), other)
    {
      var chatMsg := ChatMessage(user, msg, iv, isFile, now);
      ghost var before, was := history, Stored(history, room);
      if room !in history {
        history := history[room := []];
      }
      history := history[room := history[room] + [chatMsg]];
      if |history[room]| > Capacity {
        history := history[room := history[room][1..]];
      }
      assert history[room] == Appended(was, chatMsg);
      assert history == before[room := Appended(was, chatMsg)];
      delivered := chatMsg;
    }

    /** The messages replayed, one send each, to the caller who joins
        `roomName`: the room's stored history, oldest first; nothing when the
        room has no history. The history itself is only read. */
    method JoinRoom(roomName: string) returns (replayed: seq<ChatMessage>)
      requires Valid()
      ensures replayed == Stored(history, roomName)
      ensures roomName !in history ==> replayed == []
      ensures |replayed| <= Capacity
    {
      replayed := [];
      if roomName in history {
        var stored := history[roomName];
        var i := 0;
        while i < |stored|
          invariant 0 <= i <= |stored|
          invariant replayed == stored[..i]
        {
          replayed := replayed + [stored[i]];
          i := i + 1;
        }
      }
    }
  }

  /** The lobby walk-through: the first joiner gets nothing, and the second
      gets the first message. */
  method LobbyScenario(t: Timestamp)
  {
    var hub := new ChatHub();
    var replayed := hub.JoinRoom("lobby");
    assert replayed == [];

    var hi := hub.SendMessage("lobby", "alice", "hi", "x", false, t);
    assert hub.history["lobby"] == [ChatMessage("alice", "hi", "x", false, t)];
    replayed := hub.JoinRoom("lobby");
    assert replayed == [hi];
  }

  /** Sixty messages sent after a first one leave the room with the latest
      fifty, the first message and the next ten evicted. */
  method EvictionScenario(hub: ChatHub, first: ChatMessage, t: Timestamp)
    requires hub.Valid() && hub.history == map["lobby" := [first]]
    modifies hub
  {
    ghost var all := [first];
    var i := 0;
    while i < 60
      invariant 0 <= i <= 60 && |all| == i + 1 && all[0] == first
      invariant hub.Valid() && "lobby" in hub.history
      invariant hub.history["lobby"] == Window(all)
    {
      var m := hub.SendMessage("lobby", "bob", "more", "x", false, t + i);
      AppendedSlidesWindow(all, m);
      all := all + [m];
      i := i + 1;
    }
    var replayed := hub.JoinRoom("lobby");
    assert |replayed| == Capacity && replayed == all[11..];
  }
}
