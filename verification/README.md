# Chat relay: per-room message history

This project models the message history of a SignalR chat relay (the
`ChatHub` of `Program.cs`). The hub keeps one process-wide dictionary from a
room name to a list of `ChatMessage` records. The records are user, opaque
payload, opaque IV, an is-file flag and a timestamp. The hub has two calls:

- `SendMessage(room, user, msg, iv, isFile)` stamps the message with the
  current UTC time. It creates the room's list if the room has none, and
  appends the message at the tail. If the list then holds more than 50
  messages, it removes the head. Then it fans the message out to the room's
  group.
- `JoinRoom(roomName)` adds the caller to the room's group. It then sends
  the caller every stored message of the room, oldest first. A room without
  history sends nothing.

The model has two modules:

- `History` (`history.dfy`) holds the value side. It defines the
  `ChatMessage` datatype and the capacity (50). `Appended` is what one send
  does to one room's list, and `Sent` is what it does to the whole store.
  `Window` is a reference definition: the latest 50 messages of everything
  ever sent. The lemmas show that the hub's append-then-trim keeps exactly
  that window.
- `Hub` (`chat_hub.dfy`) holds the class `ChatHub`. Its field
  `history: map<string, seq<ChatMessage>>` stands for the static dictionary.
  One `ChatHub` object stands for the whole process, not for a SignalR hub
  instance. SignalR builds a new C# `ChatHub` for every call, but all of them
  share the one static dictionary, which no call clears. So `new ChatHub()`
  in the model means process start: the static initialiser at
  Program.cs:20, which runs once.
  `SendMessage` updates it in place, in the source's three steps
  (insert-if-absent, add, remove-head). `JoinRoom` walks the stored list
  in a loop and returns the messages the caller would receive.
  `LobbyScenario` and `EvictionScenario` are client walk-throughs (a first
  join, a first message, a second join, then sixty further sends), proved
  from the contracts alone.

The clock (`DateTime.UtcNow`) is a `Timestamp` parameter of `SendMessage`.
The messages sent over SignalR are return values: `SendMessage` returns the
message broadcast to the room, and `JoinRoom` returns the sequence replayed
to the caller.

`Program.cs` has no moderation (mute, kick, ban), no presence notices and
no room protection flag, and its `JoinRoom` takes only the room name, not a
user or a flag. None of these are modelled.

## Model

| member | source | states |
|---|---|---|
| `History.Appended` | Program.cs:37-39 | One send grows a room's list by one until it reaches 50 entries, then keeps the length. The new message is the last entry. What comes before it is the old list, without its oldest entry when one was evicted. A list within 50 entries stays within 50. |
| `History.AppendedIsWindow` | Program.cs:38-39 | On a list of at most 50 entries, add-then-remove-head is exactly "the latest 50 of the old list followed by the new message". |
| `History.AppendedSlidesWindow` | Program.cs:38-39 | If the list holds the latest 50 of the messages sent so far, then after one more send it holds the latest 50 of those messages plus the new one. |
| `History.AfterAllKeepsLatest` | Program.cs:38-39 | After any number of sends, the list is exactly the latest 50 of all messages sent, in sending order. |
| `History.HistoryFromEmpty` | Program.cs:37-39 | A room that starts empty holds min(n, 50) of its n messages, with the newest last. Once more than 50 were sent, its oldest entry is message n-50, so the oldest were evicted first. |
| `History.Sent` | Program.cs:37-39 | After a send, the room has an entry and no other room appears or changes. The new message is the room's newest. A room without history holds just that message. Below 50 nothing is evicted. At 50 the oldest is evicted and the length stays 50. If every room was within 50 before, every room is within 50 after. |
| `Hub.ChatHub.constructor` | Program.cs:20 | The hub starts with an empty dictionary, which satisfies the 50-message bound. |
| `Hub.ChatHub.SendMessage` | Program.cs:33-42 | The broadcast message carries the call's user, payload, IV and file flag and the given time. The new dictionary is `Sent` of the old one. The message ends the room's list. The three cases hold: no entry, fewer than 50 entries, exactly 50 entries. Every other room is unchanged. The 50-message bound is kept. |
| `Hub.ChatHub.JoinRoom` | Program.cs:22-31 | The caller receives the room's stored messages in stored (oldest-first) order, at most 50. The caller receives nothing when the room has no entry. The method has no `modifies` clause, so the dictionary is only read. |

## Left out

- Web host setup, CORS policy, the `/` endpoint, the `PORT` variable and `app.Run` (Program.cs:3-16): configuration and I/O plumbing.
- The 10 MB receive-size limit (Program.cs:6): a transport setting.
- The SignalR transport (`Groups.AddToGroupAsync`, `Clients.Caller.SendAsync`, `Clients.Group(room).SendAsync`): the model returns which messages would be delivered, not the delivery. Group membership added by `JoinRoom` is not modelled.
- `DateTime.UtcNow`: an external clock. The timestamp is a parameter and its ordering is not modelled.
- Concurrency: the static dictionary and its lists are shared by concurrent hub calls without locking. The model is sequential, and each call is atomic.
- Aliasing of the per-room `List` objects: each room's list is a value (`seq`) reassigned in the map, not a separate mutable object.
- Hub.ChatHub.SendMessage: null arguments are outside the model, since a Dafny `string` cannot be null. In the source, a null `room` makes `ContainsKey` (Program.cs:37) throw ArgumentNullException after the message is built, so nothing is stored and nothing is broadcast. A null `user`, `msg` or `iv` is accepted, stored (Program.cs:38) and later replayed as null.
- Hub.ChatHub.JoinRoom: null arguments are outside the model. In the source, a null `roomName` fails at `Groups.AddToGroupAsync` or `ContainsKey` (Program.cs:23, Program.cs:26), and nothing is replayed.
- Payload content: `msg` and `iv` are opaque strings that are never inspected.
