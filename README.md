# rtclite WebRTC signaling relay: a Dafny model

`rtclite/app/web/rtc/notify.py` is a WebSocket server that pairs at most two
browser connections under one call path (such as `/call/1234`) and relays
their session-negotiation messages between them. Each path has a **space**,
which holds two things:

- its member connections, in joining order;
- a FIFO queue of NOTIFY payloads sent while no peer was attached.

A process-wide table maps paths to spaces. The WebSocket transport calls four
hooks:

- `onhandshake` refuses a third member;
- `onopen` attaches the connection and flushes the queue to it;
- `onmessage` answers `GET /peerconnection` with a fixed ICE configuration, and relays or queues NOTIFY;
- `onclose` detaches the connection, closes its peer too, and deletes the space once it has no members.

The model has three layers.

- `spaces.dfy` (module `Spaces`): the `Space` class, whose `Add` and `Remove` change its
  `requests` and `pending` lists in place, as the Python class does. Also the pure
  value `SpaceState` with the queries `IsFull`, `IsEmpty` and `GetOther`, and the list
  operations behind them: `RemoveFirst` is Python's `list.remove`, `WithoutSender`
  is the comprehension that filters the queue, and `FirstOther` is `get_other`.
- `notify.dfy` (module `Notify`): the `Notifier` class. It holds the table
  `spaces: map<Path, Space<D>>` and an output `log` of `Send`/`CloseConn` events that
  stands for the `send_message` and `close` calls on connections. Its methods
  `OnHandshake`, `OnOpen`, `OnClose` and `OnMessage` are the four hooks. `OnHandshake`
  changes nothing and accepts exactly when the pure check `Admits` holds on the table.
  Each of `OnOpen`, `OnClose` and `OnMessage` is proved to leave the table, seen as
  values (`Registry()`), equal to a pure step function applied to the old table, and
  to append exactly that function's events to the log.
- `signaling.dfy` (module `Signaling`) holds those step functions: `Admits`, `OpenStep`,
  `CloseStep`, `MessageStep`. `Run` executes a sequence of transport actions, in which a join
  is the handshake check followed by the open hook. `properties.dfy`
  (module `Properties`) proves what the relay promises over them. `messages.dfy` holds
  the decoded message types and the configuration reply.

Connections are integer ids. NOTIFY payloads (`D`) and `msg_id` tokens (`M`) are
opaque type parameters. Messages are already-decoded values: `Get(resource, msgId)`,
`Notify(data)`, or `OtherMethod(name)` for every other `method` value.

Behaviour the model proves, including some that is easy to miss in the code:

- The open hook does not re-check capacity (`OpenWithoutHandshakeOverfills`). Two
  handshakes that both pass before either open runs let a third member in
  (`InterleavedHandshakesOverfill`). "At most two members" holds when every open runs
  immediately after a passing handshake, on the same table (`RunKeepsCapacity`).
- A registered space may have no members. A NOTIFY from a connection whose space was
  just deleted by a cascade close registers the path again, with the payload queued.
  That connection's own close removes the space again (`LateNotifyThenClose`).
- `onclose` closes the first member other than the closing connection, even when the
  closing connection is not a member itself. So a delayed close hook from a cascaded
  connection evicts a newcomer who has already re-registered the path
  (`StrangerCloseEvictsMember`, `StaleCloseEvictsNewcomer`). When two newcomers have
  paired up, it closes the first of them and leaves the second alone
  (`StrangerCloseSplitsPair`). A NOTIFY that such a stale connection sends is relayed to
  the newcomer (`StaleNotifyReachesNewcomer`).
- A message whose `method` is neither GET nor NOTIFY is ignored. A message that cannot be
  parsed raises inside `onmessage`; parse failures are left out (below).

## Model

| member | source | states |
|---|---|---|
| Spaces.SpaceState.IsFull | rtclite/app/web/rtc/notify.py:139-141 | a space is full exactly when it has two or more members |
| Spaces.SpaceState.IsEmpty | rtclite/app/web/rtc/notify.py:143-145 | a space is empty exactly when its member list is empty |
| Spaces.FirstOther | rtclite/app/web/rtc/notify.py:156-158 | the peer is absent exactly when every member equals the given connection; a peer found is a member and differs from it |
| Spaces.FirstOtherIsFirst | rtclite/app/web/rtc/notify.py:156-158 | the peer found is the first member different from the given connection |
| Spaces.RemoveFirst | rtclite/app/web/rtc/notify.py:152-153 | removing an absent connection leaves the members unchanged; otherwise exactly one member fewer |
| Spaces.RemoveFirstAt | rtclite/app/web/rtc/notify.py:152 | removal cuts out exactly the first occurrence of the connection, keeping the others in order |
| Spaces.RemoveFirstMultiset | rtclite/app/web/rtc/notify.py:152 | removal takes one occurrence of the connection out of the member multiset and nothing else |
| Spaces.WithoutSender | rtclite/app/web/rtc/notify.py:154 | the filtered queue holds exactly the entries not sent by the connection |
| Spaces.WithoutSenderAppend | rtclite/app/web/rtc/notify.py:154 | filtering distributes over concatenation, so the kept entries stay in FIFO order |
| Spaces.WithoutAbsentSender | rtclite/app/web/rtc/notify.py:154 | a queue with nothing from the connection is left unchanged |
| Spaces.WithoutOnlySender | rtclite/app/web/rtc/notify.py:154 | a queue holding only the connection's entries is emptied |
| Spaces.SpaceState.GetOther | rtclite/app/web/rtc/notify.py:156-158 | no peer exactly when every member is the given connection; a peer found is a member different from it (`FirstOtherIsFirst` pins it to the first such member) |
| Spaces.SpaceState.Removed | rtclite/app/web/rtc/notify.py:151-154 | an absent connection leaves the members unchanged, otherwise exactly one fewer member; the queue keeps exactly the entries the connection did not send (`RemoveFirstAt`, `WithoutSenderAppend` fix the order) |
| Spaces.Space.constructor | rtclite/app/web/rtc/notify.py:132-133 | a new space for a path has no members and an empty queue |
| Spaces.Space.Add | rtclite/app/web/rtc/notify.py:148-149 | the connection is appended as the last member; the queue and every other object are unchanged |
| Spaces.Space.Remove | rtclite/app/web/rtc/notify.py:151-154 | the first occurrence of the connection leaves the members (nothing happens if it is absent), and every queued entry it sent is dropped, the rest keeping their order |
| Messages.ConfigResponse | rtclite/app/web/rtc/notify.py:203-205 | the reply carries the success code and the fixed STUN configuration, and a msg_id exactly when the request had one, equal to it |
| Messages.ConfigIdempotent | rtclite/app/web/rtc/notify.py:128-206 | every configuration reply carries the same configuration whatever its token, and the token exactly as given |
| Signaling.Admits | rtclite/app/web/rtc/notify.py:165-170 | the handshake refuses exactly when the path is registered and its space has two or more members |
| Signaling.Flush | rtclite/app/web/rtc/notify.py:181-182 | one NOTIFY per queued payload, to the opening connection, in queue order with the data unchanged |
| Signaling.OpenStep | rtclite/app/web/rtc/notify.py:173-183 | after open the path is registered with the connection as a member and one member more, the queue is empty, and each queued payload is sent to the connection in queue order (`OpenStepAt` states that no other path changes) |
| Signaling.CloseStep | rtclite/app/web/rtc/notify.py:186-195 | close on an unregistered path changes nothing; close never registers a path; it closes at most one connection, exactly when a member other than the closing one exists, and then it is the peer `get_other` finds, the first such member (`CloseStepAt` gives the new table) |
| Signaling.MessageStep | rtclite/app/web/rtc/notify.py:198-221 | only a NOTIFY can change the table; at most one message is sent; a GET is answered exactly when it asks for /peerconnection, and then with the configuration reply to the sender; a NOTIFY sends something exactly when the sender has a peer, and then it is the payload unchanged to that peer; other methods send nothing (`NotifyStepAt` gives the new table) |
| Signaling.OpenStepAt | rtclite/app/web/rtc/notify.py:173-183 | after open the path is registered, the connection is its last member, the queue is empty, and no other path changed |
| Signaling.CloseStepAt | rtclite/app/web/rtc/notify.py:186-195 | close on an unregistered path changes nothing; otherwise only the path changes, it is deleted exactly when no member remains after the connection and its peer leave, and else keeps that remainder |
| Signaling.NotifyStepAt | rtclite/app/web/rtc/notify.py:208-221 | a NOTIFY registers the path and changes only it: unchanged when there is a peer, the payload appended to the queue when there is none |
| Notify.Notifier.constructor | rtclite/app/web/rtc/notify.py:162 | the server starts with no spaces and nothing sent |
| Notify.Notifier.OnHandshake | rtclite/app/web/rtc/notify.py:165-170 | accepts exactly when the handshake check admits the path, and modifies nothing |
| Notify.Notifier.SpaceFor | rtclite/app/web/rtc/notify.py:174-177 | returns the registered space of the path, or registers a fresh empty one; no other entry changes |
| Notify.Notifier.SendAll | rtclite/app/web/rtc/notify.py:181-182 | the loop sends one NOTIFY per queued payload to the connection, in queue order |
| Notify.Notifier.OnOpen | rtclite/app/web/rtc/notify.py:173-183 | the new table and the appended events are exactly those of the open step on the old table |
| Notify.Notifier.OnClose | rtclite/app/web/rtc/notify.py:186-195 | the new table and the appended events are exactly those of the close step on the old table |
| Notify.Notifier.OnMessage | rtclite/app/web/rtc/notify.py:198-221 | the new table and the appended events are exactly those of the message step on the old table |
| Properties.OpenAfterHandshakeKeepsCapacity | rtclite/app/web/rtc/notify.py:165-183 | an open that follows a passing handshake on the same table leaves every space with at most two members |
| Properties.OpenWithoutHandshakeOverfills | rtclite/app/web/rtc/notify.py:173-179 | open itself does not check capacity: on a full space it admits a third member |
| Properties.InterleavedHandshakesOverfill | rtclite/app/web/rtc/notify.py:165-179 | two handshakes that pass on the same table before either open runs let both opens through, leaving three members |
| Properties.CloseKeepsCapacity | rtclite/app/web/rtc/notify.py:186-195 | close keeps every space within two members |
| Properties.MessageKeepsCapacity | rtclite/app/web/rtc/notify.py:198-221 | a message keeps every space within two members |
| Properties.RunKeepsCapacity | rtclite/app/web/rtc/notify.py:165-195 | when the handshake check runs immediately before every open, on the same table, no space ever holds more than two members, for any sequence of joins, leaves and messages |
| Properties.NotifyReachesPeer | rtclite/app/web/rtc/notify.py:214-217 | with both members attached, a NOTIFY from one is sent to the other with its data unchanged, and the table is unchanged |
| Properties.AloneNotifyQueues | rtclite/app/web/rtc/notify.py:214-221 | a NOTIFY from a member alone in its space sends nothing and appends the payload, tagged with its sender, to the end of the queue |
| Properties.AloneQueuesInOrder | rtclite/app/web/rtc/notify.py:220-221 | while the sender is alone, its NOTIFYs send nothing and are appended to the queue in the order sent |
| Properties.QueueThenFlush | rtclite/app/web/rtc/notify.py:179-183 | payloads queued by a lone member reach the joining peer in the order sent, and the queue is then empty |
| Properties.DiscardOnSenderExit | rtclite/app/web/rtc/notify.py:186-195 | when the only member leaves, the space is deleted with its whole queue, whoever queued the payloads, and the next joiner receives nothing |
| Properties.CloseByMemberDeletesSpace | rtclite/app/web/rtc/notify.py:186-195 | when a member of a space with at most two distinct members closes, the path is deleted |
| Properties.CascadeClose | rtclite/app/web/rtc/notify.py:189-195 | when one of two members closes, the other is closed and the path is deleted; the other's own close then changes nothing |
| Properties.LateNotifyThenClose | rtclite/app/web/rtc/notify.py:209-221 | a NOTIFY on an unregistered path registers a member-less space that holds the payload, and the sender's close restores the table exactly |
| Properties.StrangerCloseEvictsMember | rtclite/app/web/rtc/notify.py:187-195 | a close by a non-member still closes the first member and deletes the path |
| Properties.StaleCloseEvictsNewcomer | rtclite/app/web/rtc/notify.py:186-195 | after a cascade, a newcomer that re-registers the path is closed by the cascaded peer's delayed close hook |
| Properties.StrangerCloseSplitsPair | rtclite/app/web/rtc/notify.py:187-195 | a close by a non-member of a two-member space with an empty queue closes the first member and leaves the second alone in the space |
| Properties.StaleNotifyReachesNewcomer | rtclite/app/web/rtc/notify.py:209-217 | a NOTIFY from a non-member is relayed, unchanged, to the space's only member, and the table is unchanged |
| Properties.ConfigRequestAnswered | rtclite/app/web/rtc/notify.py:202-206 | GET /peerconnection replies to the sender only, with the fixed configuration and its msg_id echoed iff present, and changes no space |
| Properties.OtherMessagesIgnored | rtclite/app/web/rtc/notify.py:202-208 | any other method, and a GET for any other resource, changes nothing and sends nothing |

## Left out

- `serve_forever` and the command-line entry point (notify.py:224-286): option parsing, the listen-address check, TLS options and the hand-off to the WebSocket server are process plumbing.
- JSON decoding and encoding (`json.loads`, `json.dumps`): messages are modelled as decoded values, and malformed ones are not modelled. In the source, a message that is not valid JSON or lacks its `method` key raises in `onmessage`, as does a GET without `resource`. A NOTIFY without `data` behaves in one of two ways. When a peer is present, the missing key is looked up inside the `try` at notify.py:216-219, so the error is swallowed and nothing is sent. When there is no peer, it raises at notify.py:221, after notify.py:209-212 may already have registered a new, empty space.
- The `try`/`except` around relaying to the peer (notify.py:216-219): a send is always recorded in the log. Whether the peer's socket is still open belongs to the transport.
- A failing send while `onopen` flushes the queue (notify.py:181-182 has no `try`). In the source the hook would abort there: the connection is already a member, the rest of the queue is not sent, and notify.py:183 never empties it. The model treats every send as successful, so `OnOpen` always delivers and empties the whole queue.
- Logging and `Space.__del__`: they only write log lines.
- `HTTPError` and the rfc6455 transport are a foreign library. The handshake rejection is the boolean `OnHandshake` returns.
- Concurrent delivery of hooks: each hook is an atomic step, and `Run` executes them one after another.
- Re-entrant close: `other.close()` at notify.py:193 is modelled as the event `CloseConn`, and the peer's own close hook is a later, separate step (`CascadeClose`, `StaleCloseEvictsNewcomer`). If the transport ran the peer's `onclose` inside `other.close()`, that nested call would find the path still registered and delete it. The outer `del spaces[request.path]` at notify.py:195 would then raise KeyError. This nesting is not modelled.
- Connection identity and truthiness: connections are integer ids compared by value. Python's `result and result[0] or None` would treat a falsy connection object as no peer, and request objects are never falsy, so this case is not modelled.
- The hooks take the request path as a parameter instead of reading `request.path`. The model does not enforce that one connection always uses the same path.
- Notify.Notifier.OnOpen: like the source, it does not require a prior handshake. The two-member bound is proved for traces in which the transport runs the handshake check immediately before each open, on the same table (`RunKeepsCapacity`). It is not proved for arbitrary calls of `OnOpen` or for interleaved handshakes, which overfill a space (`InterleavedHandshakesOverfill`).
