/**
 The chat server's shared state and its connection handler, as updated in
 place. Every `synchronized` block and every other registry update is one
 atomic step; the methods are tied to the step functions of `RegistryState`
 and to the session description of `SessionSpec`.
 */
module ChatServer {
  import opened Wrappers
  import opened Protocol
  import opened RegistryState
  import SessionSpec

  /** The three static collections of the server, and the lines written so
      far to each client's endpoint. */
  class Registry {
    var names: set<string>
    var writers: set<EndpointId>
    var clientMap: map<string, EndpointId>
    var outbox: map<EndpointId, seq<string>>

    function Snapshot(): State
      reads this
    {
      State(names, writers, clientMap, outbox)
    }

    /** `names` and the keys of `clientMap` agree. */
    predicate Valid()
      reads this
    {
      KeysAgree(Snapshot())
    }

    constructor ()
      ensures Snapshot() == Empty && Valid()
    {
      names, writers, clientMap, outbox := {}, {}, map[], map[];
    }

    /** `println(line)` on the writer of endpoint `e`. */
    method Println(e: EndpointId, line: string)
      modifies this
      ensures Snapshot() == RegistryState.Println(old(Snapshot()), e, line)
    {
      outbox := outbox[e := Received(Snapshot(), e) + [line]];
    }

    /** The `synchronized (names)` check-and-insert of the name-request loop. */
    method TryAdmit(name: string, out: EndpointId) returns (admitted: bool)
      modifies this
      ensures admitted <==> name !in old(names)
      ensures Snapshot() == RegistryState.TryAdmit(old(Snapshot()), name, out).1
    {
      if !(name in names) {
        names := names + {name};
        clientMap := clientMap[name := out];
        admitted := true;
      } else {
        admitted := false;
      }
    }

    /** `writers.add(out)`. */
    method AddWriter(out: EndpointId)
      modifies this
      ensures Snapshot() == RegistryState.AddWriter(old(Snapshot()), out)
    {
      writers := writers + {out};
    }

    /** The `finally` block: `name` leaves `names` and `clientMap` when the
        field is not null, and `out` leaves `writers`. */
    method Release(name: Option<string>, out: EndpointId)
      modifies this
      ensures Snapshot() == Cleanup(old(Snapshot()), name, out)
    {
      if name.Some? {
        names := names - {name.value};
        clientMap := clientMap - {name.value};
      }
      writers := writers - {out};
    }
  }

  /** One client connection: its endpoint, the shared registry, and the
      `name` field. With `build == AsWritten` each read of a candidate
      overwrites the field, as the server does; with `Corrected` the field is
      set only when the candidate is admitted. */
  class Handler {
    var name: Option<string>
    const out: EndpointId
    const reg: Registry
    const build: SessionSpec.Build

    constructor (reg: Registry, out: EndpointId, build: SessionSpec.Build)
      ensures this.reg == reg && this.out == out && this.build == build && name == None
    {
      this.reg := reg;
      this.out := out;
      this.build := build;
      name := None;
    }

    /** Writes `message` once to every endpoint in `writers`, in whatever
        order the set is walked. */
    method Broadcast(message: string)
      modifies reg
      ensures reg.Snapshot() == RegistryState.Broadcast(old(reg.Snapshot()), message)
    {
      ghost var start := reg.Snapshot();
      var pending := reg.writers;
      BroadcastToNone(start, message);
      while pending != {}
        invariant pending <= start.writers
        invariant reg.Snapshot() == BroadcastTo(start, start.writers - pending, message)
        decreases pending
      {
        var writer :| writer in pending;
        BroadcastToOneMore(start, start.writers - pending, writer, message);
        reg.Println(writer, message);
        assert start.writers - pending + {writer} == start.writers - (pending - {writer});
        pending := pending - {writer};
      }
      assert start.writers - pending == start.writers;
    }

    /** Writes `message` to the endpoint registered for `clientName`, if any. */
    method SendMessageToClient(clientName: string, message: string)
      modifies reg
      ensures reg.Snapshot() == SendToClient(old(reg.Snapshot()), clientName, message)
    {
      if clientName in reg.clientMap {
        var writer := reg.clientMap[clientName];
        reg.Println(writer, message);
      }
    }

    /** The handler's thread body. `input` is what successive `readLine`
        calls produce; reading past its end gives end of stream. */
    method Run(input: seq<Event>)
      requires name == None
      modifies this, reg
      ensures reg.Snapshot() == SessionSpec.Run(build, old(reg.Snapshot()), out, input)
      ensures old(reg.Valid()) ==> reg.Valid()
      ensures build.Corrected? && old(reg.Valid()) ==>
        reg.names == old(reg.names) && reg.clientMap == old(reg.clientMap) && reg.writers == old(reg.writers) - {out}
    {
      ghost var start := reg.Snapshot();
      ghost var goal := SessionSpec.Run(build, start, out, input);
      var unread := input;
      label session: {
        // Request a name from this client.
        while true
          invariant SessionSpec.Negotiate(build, RegistryState.Println(reg.Snapshot(), out, SubmitName),
                                          out, name, unread) == goal
          decreases |unread|
        {
          reg.Println(out, SubmitName);
          ghost var prompted := reg.Snapshot();
          ghost var before := name;
          var event := if unread == [] then Eof else unread[0];
          if unread != [] {
            unread := unread[1..];
          }
          match event {
            case Eof =>
              name := None;
              break session;
            case IoError =>
              break session;
            case Line(candidate) =>
              if build.AsWritten? {
                name := Some(candidate);
              }
              var admitted := reg.TryAdmit(candidate, out);
              if admitted {
                name := Some(candidate);
                SessionSpec.FreeNameAdmitted(build, prompted, out, before, candidate, unread);
                break;
              }
          }
        }
        // Acknowledge the name, register the endpoint, announce the client.
        ghost var admittedState := reg.Snapshot();
        reg.Println(out, NameAccepted);
        reg.AddWriter(out);
        Broadcast(NewClient(name.value));
        assert reg.Snapshot() == SessionSpec.Join(admittedState, name.value, out);
        // Relay every further line.
        while true
          invariant name.Some?
          invariant SessionSpec.Relay(reg.Snapshot(), out, name.value, unread) == goal
          decreases |unread|
        {
          var event := if unread == [] then Eof else unread[0];
          if unread != [] {
            unread := unread[1..];
          }
          match event {
            case Line(text) =>
              Broadcast(Message(name.value, text));
            case _ =>
              break session;
          }
        }
      }
      reg.Release(name, out);
      if KeysAgree(start) {
        SessionSpec.RunKeepsKeysAgree(build, start, out, input);
        if build.Corrected? {
          SessionSpec.CorrectedLeavesRegistry(start, out, input);
        }
      }
    }
  }
}
