/** The Badger store: queue configurations, and the messages under each queue's key prefix. */
module Store {
  import opened Types
  import F = Fsm
  import Q = QueueSpec

  /** Reading back what was written, and writing twice. */
  lemma Written(db: F.Db, name: string, msgs: map<nat, Message>)
    ensures F.MsgsOf(F.WithMsgs(db, name, msgs), name) == msgs
    ensures forall other, m :: other != name ==>
      F.MsgsOf(F.WithMsgs(db, name, m), other) == F.MsgsOf(db, other)
    ensures forall m :: F.WithMsgs(F.WithMsgs(db, name, m), name, msgs) == F.WithMsgs(db, name, msgs)
  {
    forall m ensures F.WithMsgs(F.WithMsgs(db, name, m), name, msgs) == F.WithMsgs(db, name, msgs) {
      assert db.msgs[name := m] - {name} == db.msgs - {name};
      assert db.msgs - {name} - {name} == db.msgs - {name};
      assert (db.msgs - {name})[name := msgs] == db.msgs[name := msgs];
      assert db.msgs[name := m][name := msgs] == db.msgs[name := msgs];
    }
  }

  /** A queue without messages has no entry. */
  ghost predicate Normal(db: F.Db) {
    forall name :: name in db.msgs ==> db.msgs[name] != map[]
  }

  lemma WrittenBack(db: F.Db, name: string)
    requires Normal(db)
    ensures F.WithMsgs(db, name, F.MsgsOf(db, name)) == db
  {
    if name in db.msgs {
      assert db.msgs[name := db.msgs[name]] == db.msgs;
    } else {
      assert db.msgs - {name} == db.msgs;
    }
  }

  class BadgerStore {
    var configs: map<string, Config>
    var messages: map<string, map<nat, Message>>

    function Db(): F.Db
      reads this
    {
      F.Db(configs, messages)
    }

    ghost predicate Valid()
      reads this
    {
      Normal(Db())
    }

    function Under(name: string): map<nat, Message>
      reads this
    {
      F.MsgsOf(Db(), name)
    }

    constructor ()
      ensures Valid() && Db() == F.Db(map[], map[])
    {
      configs, messages := map[], map[];
    }

    /** Replaces the messages of one queue. */
    method Write(name: string, msgs: map<nat, Message>)
      requires Valid()
      modifies this
      ensures Valid() && Db() == F.WithMsgs(old(Db()), name, msgs) && Under(name) == msgs
    {
      Written(Db(), name, msgs);
      messages := F.WithMsgs(Db(), name, msgs).msgs;
    }

    method Enqueue(name: string, id: nat, group: string, priority: int, content: string, metadata: map<string, string>)
      returns (msg: Message)
      requires Valid()
      modifies this
      ensures Valid() && msg == Message(group, priority, content, metadata, 0)
      ensures Db() == F.WithMsgs(old(Db()), name, old(Under(name))[id := msg]) && Under(name) == old(Under(name))[id := msg]
    {
      msg := Message(group, priority, content, metadata, 0);
      Write(name, Under(name)[id := msg]);
    }

    /** Counts the delivery, and removes the message at once if it needs no ack. */
    method Dequeue(name: string, id: nat, ack: bool) returns (r: Result<Message>)
      requires Valid()
      modifies this
      ensures Valid()
      ensures id !in old(Under(name)) ==> r == Err(MessageNotFound) && Db() == old(Db())
      ensures id in old(Under(name)) ==>
        && r == Ok(Q.Delivered(old(Under(name))[id]))
        && r.value.group == old(Under(name))[id].group && r.value.priority == old(Under(name))[id].priority
        && r.value.content == old(Under(name))[id].content && r.value.metadata == old(Under(name))[id].metadata
        && r.value.deliveryCount == (old(Under(name))[id].deliveryCount + 1) % UINT32_SIZE
        && Under(name) == (if ack then old(Under(name)) - {id} else old(Under(name))[id := r.value])
        && Db() == F.WithMsgs(old(Db()), name, Under(name))
    {
      if id !in Under(name) {
        return Err(MessageNotFound);
      }
      var msg := Q.Delivered(Under(name)[id]);
      Write(name, if ack then Under(name) - {id} else Under(name)[id := msg]);
      r := Ok(msg);
    }

    method Get(name: string, id: nat) returns (r: Result<Message>)
      ensures r == if id in Under(name) then Ok(Under(name)[id]) else Err(MessageNotFound)
    {
      r := if id in Under(name) then Ok(Under(name)[id]) else Err(MessageNotFound);
    }

    method Delete(name: string, id: nat) returns (r: Result<Message>)
      requires Valid()
      modifies this
      ensures Valid()
      ensures id !in old(Under(name)) ==> r == Err(MessageNotFound) && Db() == old(Db())
      ensures id in old(Under(name)) ==>
        && r == Ok(old(Under(name))[id]) && Under(name) == old(Under(name)) - {id}
        && Db() == F.WithMsgs(old(Db()), name, Under(name))
    {
      if id !in Under(name) {
        return Err(MessageNotFound);
      }
      r := Ok(Under(name)[id]);
      Write(name, Under(name) - {id});
    }

    method Ack(name: string, id: nat)
      requires Valid()
      modifies this
      ensures Valid() && Under(name) == old(Under(name)) - {id} && Db() == F.WithMsgs(old(Db()), name, Under(name))
    {
      Write(name, Under(name) - {id});
    }

    method UpdatePriority(name: string, id: nat, priority: int) returns (r: Result<()>)
      requires Valid()
      modifies this
      ensures Valid()
      ensures id !in old(Under(name)) ==> r == Err(MessageNotFound) && Db() == old(Db())
      ensures id in old(Under(name)) ==>
        && r == Ok(()) && Under(name) == old(Under(name))[id := old(Under(name))[id].(priority := priority)]
        && Db() == F.WithMsgs(old(Db()), name, Under(name))
    {
      if id !in Under(name) {
        return Err(MessageNotFound);
      }
      Write(name, Under(name)[id := Under(name)[id].(priority := priority)]);
      r := Ok(());
    }

    method UpdateMessage(name: string, id: nat, priority: int, metadata: map<string, string>) returns (r: Result<()>)
      requires Valid()
      modifies this
      ensures Valid()
      ensures id !in old(Under(name)) ==> r == Err(MessageNotFound) && Db() == old(Db())
      ensures id in old(Under(name)) ==>
        && r == Ok(())
        && Under(name) == old(Under(name))[id := Q.UpdatedMessage(old(Under(name))[id], priority, metadata)]
        && (var (was, now) := (old(Under(name))[id], Under(name)[id]);
            && now.group == was.group && now.content == was.content && now.deliveryCount == was.deliveryCount
            && now.priority == (if priority == 0 then was.priority else priority)
            && now.metadata == if metadata == map[] then was.metadata else metadata)
        && Db() == F.WithMsgs(old(Db()), name, Under(name))
    {
      if id !in Under(name) {
        return Err(MessageNotFound);
      }
      Write(name, Under(name)[id := Q.UpdatedMessage(Under(name)[id], priority, metadata)]);
      r := Ok(());
    }

    method RestoreMessage(name: string, id: nat, msg: Message)
      requires Valid()
      modifies this
      ensures Valid() && Under(name) == old(Under(name))[id := msg] && Db() == F.WithMsgs(old(Db()), name, Under(name))
    {
      Write(name, Under(name)[id := msg]);
    }

    /** `CreateQueue` and `UpdateQueue`. */
    method SetQueue(name: string, config: Config)
      requires Valid()
      modifies this
      ensures Valid() && Db() == old(Db()).(configs := old(configs)[name := config])
    {
      configs := configs[name := config];
    }

    method DeleteQueue(name: string)
      requires Valid()
      modifies this
      ensures Valid() && Db() == F.Db(old(configs) - {name}, old(messages) - {name})
    {
      configs, messages := configs - {name}, messages - {name};
    }

    method DeleteAll()
      modifies this
      ensures Valid() && Db() == F.Db(map[], map[])
    {
      configs, messages := map[], map[];
    }

    method LoadQueue(name: string) returns (config: Option<Config>)
      ensures config == if name in Db().configs then Some(Db().configs[name]) else None
    {
      config := if name in configs then Some(configs[name]) else None;
    }
  }
}
