# Chat server — a verified Dafny model

This is a model of the multi-client line chat server in `src/chatserver/ChatServer.java`. Each connection runs a handler. The handler prompts with `SUBMITNAME` until the client offers a screen name nobody holds. It then answers `NAMEACCEPTED`, adds the client's writer to the broadcast set and announces `NEWCLIENT <name>` to everyone. After that, every line the client sends goes to every writer as `MESSAGE <name>: <line>`. When the connection ends, a `finally` block takes the client out of the three static collections:

- `names`, the taken screen names;
- `writers`, the endpoints that receive broadcasts;
- `clientMap`, from each name to its endpoint.

The project is organised as follows:

- `protocol.dfy` (`Protocol`) defines the events a read can produce:
  - a line;
  - end of stream, when `readLine` returns null;
  - an `IOException`.

  It also defines the four server line formats.
- `registry_state.dfy` (`RegistryState`) holds the registry as a value `State`. It adds the lines written so far to each endpoint, and defines each atomic step on it:
  - the check-and-insert;
  - `writers.add`;
  - `broadcast`;
  - `sendMessageToClient`;
  - the `finally` cleanup.
- `session_spec.dfy` (`SessionSpec`) describes one whole session as a function of the events its channel produces:
  - `Negotiate` is the name-request loop, `Relay` the message loop, and `Run` the whole session;
  - it holds the lemmas about sessions.
- `chat_server.dfy` (`ChatServer`) holds the imperative model:
  - the class `Registry` holds the static collections and is updated in place;
  - the class `Handler` has the `name` field, which the as-written build overwrites on each read;
  - `Handler.Run` has the two `while (true)` loops and the `try`/`finally`, written as a labelled block that every exit breaks out of;
  - `Handler.Broadcast` walks the writer set.

  Each method is proved to produce exactly the state given by the matching function of `RegistryState` or `SessionSpec`.

Three points of the code shape the model:

- The code keeps three collections (`names`, `writers`, `clientMap`) rather than a single name-to-endpoint map. As a result, a registry invariant can break here that a single map could not express. Only `names == clientMap.Keys` is preserved; `writers` can disagree with `clientMap` (see Findings).
- `broadcast` reaches every writer, the sender included.
- Only end of stream or a read error ends the negotiation; every line, the empty one included, is a candidate name. A name may even contain `": "`, so a `MESSAGE` line does not always tell who sent it (`Protocol.MessageAmbiguous`).

Both builds describe the name-request loop, and `ChatServer.Handler` carries one of them as a constant:

- `SessionSpec.Build.AsWritten` is the handler as written: the `name` field holds the last candidate read, even a rejected one.
- `SessionSpec.Build.Corrected` is the evidently intended handler: the field is set only when the name is admitted.

## Model

| member | source | states |
|---|---|---|
| Protocol.NewClient | src/chatserver/ChatServer.java:122 | the join notice is `NEWCLIENT ` followed by exactly the name |
| Protocol.Message | src/chatserver/ChatServer.java:130 | a relayed line is `MESSAGE `, the sender's name, `: ` and exactly the line read, in that order |
| Protocol.MessageAmbiguous | src/chatserver/ChatServer.java:103-130 | because any line is accepted as a name, the messages of sender `a: b` and sender `a` can be the same line |
| Protocol.KindsDistinct | src/chatserver/ChatServer.java:102-130 | `SUBMITNAME`, `NAMEACCEPTED`, every `NEWCLIENT` line and every `MESSAGE` line are pairwise different, so a client can tell them apart |
| RegistryState.Println | src/chatserver/ChatServer.java:102 | one `println` on one endpoint (used at :102, :118, :157 and :167); defined as `Append` of a single line, whose contract gives the endpoint's output extended by that line and everything else unchanged |
| RegistryState.Append | src/chatserver/ChatServer.java:102 | writing lines to one endpoint extends that endpoint's output by exactly those lines; every other endpoint and every collection is unchanged |
| RegistryState.AppendAppend | src/chatserver/ChatServer.java:102 | two writes to the same endpoint are one write of both batches in order |
| RegistryState.TryAdmit | src/chatserver/ChatServer.java:108-114 | admission happens if and only if the name is not taken; when it does, the name joins `names` and maps to the caller's endpoint in `clientMap` in the same step; a taken name leaves the whole state unchanged; `names == clientMap.Keys` is preserved |
| RegistryState.AddWriter | src/chatserver/ChatServer.java:119 | the endpoint joins `writers`; nothing else changes |
| RegistryState.BroadcastTo | src/chatserver/ChatServer.java:155-159 | every endpoint in the target set gets the message appended once, and every other endpoint and every collection is unchanged |
| RegistryState.BroadcastToNone | src/chatserver/ChatServer.java:156 | broadcasting to no endpoint changes nothing |
| RegistryState.BroadcastToOneMore | src/chatserver/ChatServer.java:156-157 | reaching one more writer is one more `println` on that writer, whatever order the set is walked in |
| RegistryState.Broadcast | src/chatserver/ChatServer.java:155-159 | every endpoint in `writers` receives the message exactly once after what it had; other endpoints and the collections are unchanged |
| RegistryState.SendToClient | src/chatserver/ChatServer.java:164-169 | only the endpoint `clientMap` holds for the name receives the message; no other endpoint changes; an unknown name changes nothing |
| RegistryState.Cleanup | src/chatserver/ChatServer.java:134-143 | the endpoint leaves `writers`; a non-null name leaves `names` and `clientMap`, other entries keep their endpoints; a null name leaves both as they were; `names == clientMap.Keys` is preserved |
| RegistryState.CleanupAbsent | src/chatserver/ChatServer.java:135-140 | removing a name that is not registered leaves `names` and `clientMap` unchanged |
| RegistryState.CleanupIdempotent | src/chatserver/ChatServer.java:134-143 | for any state, name field and endpoint, including a registered name, running the cleanup twice gives the same state as running it once |
| SessionSpec.Join | src/chatserver/ChatServer.java:117-122 | the steps after admission: `NAMEACCEPTED` to the client, `writers.add`, then the `NEWCLIENT` broadcast; its effect on each endpoint and collection is `SessionSpec.JoinEffect` |
| SessionSpec.Relay | src/chatserver/ChatServer.java:125-131 | the message loop followed by the cleanup; described by `SessionSpec.RelayDelivers`, `SessionSpec.RelayEndsWithOwnCleanup` and `SessionSpec.RelayKeepsKeysAgree` |
| SessionSpec.Negotiate | src/chatserver/ChatServer.java:101-143 | the name-request loop as entered after a prompt: end of stream clears the field and cleans up, a read error cleans up the field as it stands, a free name goes on to `Join` and `Relay`, a taken one re-prompts; described by `SessionSpec.RejectionsReprompt`, `SessionSpec.FreeNameAdmitted`, `SessionSpec.EndWhileNegotiating`, `SessionSpec.NegotiateKeepsKeysAgree`, `SessionSpec.StaleRunIsCleanup` and `SessionSpec.CorrectedNegotiateLeavesRegistry` |
| SessionSpec.Run | src/chatserver/ChatServer.java:94-150 | a whole session from the first prompt to the cleanup; described by `SessionSpec.SessionLifecycle`, `SessionSpec.RunKeepsKeysAgree`, `SessionSpec.NameReusableAfterDeparture`, `SessionSpec.StaleNameRemovedOnIoError` and `SessionSpec.CorrectedLeavesRegistry`, and implemented by `ChatServer.Handler.Run` |
| SessionSpec.RelayKeepsKeysAgree | src/chatserver/ChatServer.java:125-143 | the message loop and its cleanup keep `names == clientMap.Keys` |
| SessionSpec.NegotiateKeepsKeysAgree | src/chatserver/ChatServer.java:101-143 | the name-request loop, whatever follows it, keeps `names == clientMap.Keys` |
| SessionSpec.RunKeepsKeysAgree | src/chatserver/ChatServer.java:94-150 | a whole session, whatever its client sends and even with the stale-name cleanup, keeps `names == clientMap.Keys` |
| SessionSpec.RelayEndsWithOwnCleanup | src/chatserver/ChatServer.java:125-143 | however the message loop ends (end of stream or read error), the session's own name leaves `names` and `clientMap` and its endpoint leaves `writers` |
| SessionSpec.RelayDelivers | src/chatserver/ChatServer.java:125-131 | each line read while registered reaches every writer as `MESSAGE name: line`, exactly once each, in the order read; non-writers receive nothing |
| SessionSpec.RejectionsReprompt | src/chatserver/ChatServer.java:101-115 | any number of taken candidates only re-prompts: the session's endpoint gets one more `SUBMITNAME` per candidate, no collection changes, and the loop continues with the next read |
| SessionSpec.RunAfterRejections | src/chatserver/ChatServer.java:101-115 | a session opened by taken candidates has written one `SUBMITNAME` per read, plus the prompt for the next read, and is still negotiating with the registry unchanged |
| SessionSpec.EndWhileNegotiating | src/chatserver/ChatServer.java:101-106 | end of stream before any name was admitted leaves `names` and `clientMap` unchanged; the endpoint is out of `writers`; the client has seen only the prompts, and no other endpoint has received anything |
| SessionSpec.JoinEffect | src/chatserver/ChatServer.java:118-122 | after admission the client gets `NAMEACCEPTED` and then its own `NEWCLIENT name`; every other writer gets only `NEWCLIENT name`; the endpoint joins `writers` |
| SessionSpec.FreeNameAdmitted | src/chatserver/ChatServer.java:108-114 | a free candidate ends the name-request loop at once, and the session continues with the message loop under that name |
| SessionSpec.AdmittedSession | src/chatserver/ChatServer.java:103-143 | from reading a free name to the end of the session, the outputs of the client and of every other endpoint are as described, and `names`/`clientMap` end as the session found them |
| SessionSpec.SessionLifecycle | src/chatserver/ChatServer.java:94-150 | a complete session (taken candidates, a free name, lines, then end of stream or a read error) writes exactly `SUBMITNAME` once per read up to admission, then `NAMEACCEPTED`, `NEWCLIENT c` and one `MESSAGE` per line to the client; every other writer gets `NEWCLIENT c` and the messages; the registry ends as it started, apart from the session's endpoint leaving `writers` |
| SessionSpec.NameReusableAfterDeparture | src/chatserver/ChatServer.java:108-140 | after a registered session has ended, its name is free again, and a later session offering it is accepted on the first try |
| SessionSpec.FreeNameFirstTry | src/chatserver/ChatServer.java:101-122 | a client whose first candidate is free sees exactly `SUBMITNAME`, `NAMEACCEPTED`, `NEWCLIENT name` |
| SessionSpec.EmptyNameAccepted | src/chatserver/ChatServer.java:103-110 | the empty line is accepted as a name |
| SessionSpec.StaleNameRemovedOnIoError | src/chatserver/ChatServer.java:103-140 | as written: a read error after rejected candidates removes the last rejected name, which another session holds, from `names` and `clientMap`; that session's endpoint stays in `writers` with no entry in `names` or `clientMap` |
| SessionSpec.StaleRunIsCleanup | src/chatserver/ChatServer.java:132-140 | as written: such a session ends in the cleanup of the last rejected candidate |
| SessionSpec.StaleNameCounterexample | src/chatserver/ChatServer.java:103-140 | concrete instance: with "alice" registered on endpoint 1, a second client that offers "alice" and then fails a read leaves nobody holding "alice", while endpoint 1 still receives broadcasts |
| SessionSpec.CorrectedNegotiateLeavesRegistry | src/chatserver/ChatServer.java:101-143 | corrected: once the field is set only on admission, the name-request loop and whatever follows it leave `names` and `clientMap` unchanged and take only the session's own endpoint out of `writers` |
| SessionSpec.CorrectedLeavesRegistry | src/chatserver/ChatServer.java:94-150 | corrected: whatever its client sends, a session removes no other session's entry; `names` and `clientMap` end as they began |
| ChatServer.Registry.constructor | src/chatserver/ChatServer.java:37-48 | the three collections start empty and agree |
| ChatServer.Registry.Println | src/chatserver/ChatServer.java:102 | in place: exactly the `Println` step |
| ChatServer.Registry.TryAdmit | src/chatserver/ChatServer.java:108-114 | in place: returns whether the name was free, and the new state is the `TryAdmit` step |
| ChatServer.Registry.AddWriter | src/chatserver/ChatServer.java:119 | in place: exactly `writers.add(out)` |
| ChatServer.Registry.Release | src/chatserver/ChatServer.java:134-143 | in place: exactly the `Cleanup` step |
| ChatServer.Handler.constructor | src/chatserver/ChatServer.java:83-85 | a new handler is bound to its registry and endpoint and has a null `name` |
| ChatServer.Handler.Broadcast | src/chatserver/ChatServer.java:155-159 | the loop over `writers`, taken in any order, ends in exactly the `Broadcast` state: every writer once |
| ChatServer.Handler.SendMessageToClient | src/chatserver/ChatServer.java:164-169 | in place: exactly the targeted `SendToClient` step |
| ChatServer.Handler.Run | src/chatserver/ChatServer.java:94-150 | the two loops and the `finally` leave the registry exactly as `SessionSpec.Run` describes for the handler's build; a registry with `names == clientMap.Keys` keeps it; the corrected build takes nothing out of `names` and `clientMap` except what it added, and only its own endpoint out of `writers` |

## Left out

- Server start-up, the `ServerSocket` accept loop and thread creation in `main` are not modelled. A handler is run on a given registry and endpoint.
- Concurrency is not modelled, including the `synchronized (names)` blocks. Each registry update is one atomic step, and a session runs without interleaving with others. The unsynchronized accesses to `writers` and `clientMap`, and a broadcast racing a removal, are therefore not captured.
- The model does not create the reader and writer streams, auto-flush, or close the socket. An `IOException` while the streams are being built (so that `out` is still null) is not modelled; the model's session always has an endpoint.
- Sockets and `readLine` are replaced by a finite sequence of events. Reading past its end counts as end of stream.
- The model does not write to standard output, including the logging of exceptions.
- `PrintWriter.println` never throws: it swallows a write error and sets the writer's error flag. Those swallowed errors are not modelled, so a broken endpoint's outbox still records every line written to it.
- The iteration order of the `HashSet` is not modelled. `Handler.Broadcast` picks writers in any order, and only the per-endpoint order is stated.
- `PrintWriter` identity is modelled as a natural-number endpoint id, and what each endpoint has received is modelled as a sequence of lines.

## Findings

| source | as written | input that shows it | evidently intended | confidence | as-written member | corrected member |
|---|---|---|---|---|---|---|
| src/chatserver/ChatServer.java:103-140 | `name = in.readLine()` stores every candidate in the field, even one that is then rejected. An `IOException` on the next read goes to the `finally` block with that field set, so `names.remove(name)` and `clientMap.remove(name)` remove the name of another live session. That session's writer stays in `writers`, and it has no entry in `names` or `clientMap` from then on; its handler still sends `MESSAGE alice: …` lines. A later session can then take the name, and the victim's own cleanup removes that later session's entry in turn. | "alice" is registered on endpoint 1. A second client sends "alice", is re-prompted, and its next read fails. After the cleanup, `names` and `clientMap` are empty. Endpoint 1 is still in `writers`, and "alice" can be taken again. | Set the field only when the name is admitted. The cleanup then removes a name only when this session owns it. | not executed | SessionSpec.StaleNameCounterexample | SessionSpec.CorrectedLeavesRegistry |
