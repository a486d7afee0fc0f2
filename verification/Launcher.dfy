/** The launcher's objects: the send queue and its task, the MQTT client with its listeners, the table and the event
    handlers. Each method does what the steps of the protocol say. */
module Launcher {
  import opened Sib

  class Launcher {
    var queue: seq<Message>
    var events: Events
    var rows: seq<Message>
    var kp: Kp
    var sessionKey: Key
    var listeners: map<string, Listener>
    var lastError: int
    var now: int
    ghost var history: History

    /** The state of the protocol between two tasks. */
    ghost function Protocol(): State
      reads this
    {
      State(queue, Idle, events, rows, kp, sessionKey, listeners, lastError, now, history)
    }

    /** A client that is connected exists. */
    predicate Valid()
      reads this
    {
      kp.connected ==> kp.created
    }

    constructor (listeners: map<string, Listener>, now: int)
      ensures Valid() && Protocol() == Start(listeners, now)
    {
      queue, rows, events := [], [], Events(multiset{}, multiset{}, 0, multiset{});
      kp, sessionKey := Kp(false, false, multiset{}), NoKey;
      this.listeners, lastError, this.now := listeners, 0, now;
      history := History(NoKey, 0, {}, {});
    }

    // Listeners

    method Register(listener: Listener)
      modifies this`kp
      ensures kp == if old(kp).created then old(kp).(registered := old(kp).registered + multiset{listener}) else old(kp)
    {
      if kp.created {
        kp := kp.(registered := kp.registered + multiset{listener});
      }
    }

    method Unregister(listener: Listener)
      modifies this`kp
      ensures kp == if old(kp).created then old(kp).(registered := old(kp).registered - multiset{listener}) else old(kp)
    {
      if kp.created {
        kp := kp.(registered := kp.registered - multiset{listener});
      }
    }

    method SubscribeListeners()
      requires kp.created
      modifies this`kp
      ensures kp == old(kp).(registered := old(kp).registered + Values(listeners))
    {
      var keys := listeners.Keys;
      while keys != {}
        invariant keys <= listeners.Keys
        invariant kp == old(kp).(registered := kp.registered)
        invariant kp.registered + Of(listeners, keys) == old(kp).registered + Values(listeners)
        decreases |keys|
      {
        var key :| key in keys;
        OfMore(listeners, keys, key);
        keys := keys - {key};
        AddOne(kp.registered, Of(listeners, keys), listeners[key]);
        Register(listeners[key]);
      }
    }

    method RemoveListeners()
      requires kp.created
      modifies this`kp
      ensures kp == old(kp).(registered := old(kp).registered - Values(listeners))
    {
      var keys := listeners.Keys;
      while keys != {}
        invariant keys <= listeners.Keys
        invariant kp == old(kp).(registered := kp.registered)
        invariant kp.registered - Of(listeners, keys) == old(kp).registered - Values(listeners)
        decreases |keys|
      {
        var key :| key in keys;
        OfMore(listeners, keys, key);
        keys := keys - {key};
        TakeOne(kp.registered, Of(listeners, keys), listeners[key]);
        Unregister(listeners[key]);
      }
      TakeNothing(kp.registered);
    }

    method SubscribeListener(key: string, listener: Listener)
      modifies this`listeners, this`kp
      ensures Protocol() == Next(old(Protocol()), Subscribe(key, listener))
    {
      PutAgain(listeners, key, listener);
      TakeNothing(kp.registered);
      if key in listeners {
        Unregister(listeners[key]);
        listeners := listeners - {key};
      }
      Register(listener);
      listeners := listeners[key := listener];
    }

    // The link

    /** The MQTT client has connected. */
    method Attach()
      requires kp.created
      modifies this`kp, this`history
      ensures Protocol() == Attached(old(Protocol()))
    {
      kp := kp.(connected := true);
      history := history.(joinKey := NoKey);
      SubscribeListeners();
    }

    /** The SIB has answered the join with OK. */
    method TakeKey(key: Key)
      modifies this`sessionKey, this`history, this`events
      ensures Protocol() == WithJoin(old(Protocol()), key)
    {
      sessionKey := key;
      history := history.(joinKey := key);
      events := events.(connections := events.connections + 1);
    }

    /** Connects and joins. `raised` stands for an exception that leaves the method. */
    method MqttConnect(answer: bool, joined: JoinReply) returns (raised: bool)
      modifies this`kp, this`sessionKey, this`history, this`events
      ensures old(kp).connected ==> !raised && Protocol() == old(Protocol()).(kp := old(kp).(created := true))
      ensures !old(kp).connected ==> raised == !(answer && joined.Joined?)
      ensures !old(kp).connected ==>
                var s := Unconnected(old(Protocol()));
                Protocol() == if !answer then s
                              else if raised then Attached(s)
                              else WithJoin(Attached(s), Key(joined.key))
    {
      if !kp.created {
        kp := kp.(created := true);
      }
      if kp.connected {
        return false;
      }
      RemoveListeners();
      assert Protocol() == Unconnected(old(Protocol()));
      if !answer {
        return true;
      }
      Attach();
      if joined.Joined? {
        TakeKey(Key(joined.key));
      }
      return !joined.Joined?;
    }

    method MqttDisconnect()
      requires kp.created
      modifies this`kp
      ensures Protocol() == Disconnected(old(Protocol()))
    {
      RemoveListeners();
      kp := kp.(connected := false);
    }

    method PublishError(msg: Message)
      modifies this`events, this`history
      ensures Protocol() == Reported(old(Protocol()), msg)
    {
      events := events.(errors := events.errors + multiset{msg});
      history := history.(failed := history.failed + {Clear(msg)});
    }

    /** What the catch clauses do after an exception. */
    method Fail(msg: Message)
      requires kp.created
      modifies this`events, this`history, this`lastError, this`kp
      ensures Protocol() == Recover(old(Protocol()), msg)
    {
      PublishError(msg);
      lastError := now;
      MqttDisconnect();
    }

    /** Sends one message over the link that is up. */
    method SendOver(msg: Message, reply: Reply)
      requires kp.created && kp.connected
      modifies this`events, this`history, this`lastError, this`kp
      ensures Protocol() == Answer(SetKey(old(Protocol()), msg), reply)
    {
      var request := msg.(key := sessionKey);
      match reply
      case Raised => Fail(request);
      case NotAccepted =>
      case Accepted =>
        events := events.(sents := events.sents + multiset{request});
        history := history.(acked := history.acked + {Clear(request)});
    }

    /** Sends one message, over a new connection when there is none. */
    method MqttSend(msg: Message, answer: bool, joined: JoinReply, reply: Reply)
      requires Valid()
      modifies this
      ensures Valid()
      ensures Protocol() == Sent(old(Protocol()), msg, answer, joined, reply)
    {
      SentCases(Protocol(), msg, answer, joined, reply);
      if !kp.connected {
        var raised := MqttConnect(answer, joined);
        if raised {
          Fail(msg);
          return;
        }
      }
      SendOver(msg, reply);
    }

    /** What a task does: nothing during the back-off. */
    method SendNow(msg: Message, answer: bool, joined: JoinReply, reply: Reply)
      requires Valid()
      modifies this
      ensures Valid()
      ensures var s := old(Protocol());
              Protocol() == if BackedOff(s) then s
                            else Sent(s.(history := s.history.(began := s.now)), msg, answer, joined, reply)
    {
      if lastError + RESPONSE_TIMEOUT * 2 < now {
        history := history.(began := now);
        MqttSend(msg, answer, joined, reply);
      }
    }

    /** The executor takes the next task. */
    method RunTask(answer: bool, joined: JoinReply, reply: Reply)
      requires Valid()
      modifies this
      ensures Valid()
      ensures var run := [Begin, ConnectAnswer(answer), JoinAnswer(joined), SendAnswer(reply)];
              Protocol() == After(old(Protocol()), run)
      ensures Safe(old(Protocol())) ==> Safe(Protocol())
    {
      TaskRun(Protocol(), answer, joined, reply);
      if queue != [] {
        var msg := queue[0];
        queue := queue[1..];
        SendNow(msg, answer, joined, reply);
      }
    }

    method Send(msg: Message)
      modifies this`queue
      ensures Protocol() == Next(old(Protocol()), Submit(msg)) && queue == old(queue) + [msg]
    {
      queue := queue + [msg];
    }

    // The event handlers. Each takes one published event.

    method OnError(msg: Message)
      requires msg in events.errors
      modifies this`events, this`rows
      ensures Protocol() == Next(old(Protocol()), HandleError(msg))
    {
      events := events.(errors := events.errors - multiset{msg});
      var row := msg.(key := NoKey);
      if row !in rows {
        rows := rows + [row];
      }
    }

    method OnSent(msg: Message)
      requires msg in events.sents
      modifies this`events, this`rows
      ensures Protocol() == Next(old(Protocol()), HandleSent(msg))
    {
      events := events.(sents := events.sents - multiset{msg});
      var row := msg.(key := NoKey);
      if row in rows {
        rows := Delete(rows, row);
      } else {
        DeleteNothing(rows, row);
      }
    }

    method OnConnection()
      requires events.connections > 0
      modifies this`events
      ensures Protocol() == Next(old(Protocol()), HandleConnection)
    {
      events := events.(connections := events.connections - 1);
      ghost var taken := events;
      for i := 0 to |rows|
        invariant events == taken.(toSend := taken.toSend + multiset(rows[..i]))
      {
        RowMore(rows, i);
        events := events.(toSend := events.toSend + multiset{rows[i]});
      }
      assert rows[..|rows|] == rows;
    }

    method OnData(msg: Message)
      requires msg in events.toSend
      modifies this`events, this`queue
      ensures Protocol() == Next(old(Protocol()), HandleData(msg))
    {
      events := events.(toSend := events.toSend - multiset{msg});
      Send(msg);
    }
  }

  lemma {:induction false} DeleteNothing(rows: seq<Message>, r: Message)
    requires r !in rows
    ensures Delete(rows, r) == rows
  {
    if rows != [] {
      DeleteNothing(rows[1..], r);
    }
  }

  // A whole task

  /** The link when connecting has failed. */
  ghost function Unconnected(s: State): State {
    s.(kp := s.kp.(created := true, registered := s.kp.registered - Values(s.listeners)))
  }

  /** The link when it is connected and the join has not been answered. */
  ghost function Attached(s: State): State {
    s.(kp := s.kp.(connected := true, registered := s.kp.registered + Values(s.listeners)),
       history := s.history.(joinKey := NoKey))
  }

  ghost function Disconnected(s: State): State {
    s.(kp := s.kp.(registered := s.kp.registered - Values(s.listeners), connected := false))
  }

  function Reported(s: State, m: Message): State {
    s.(events := s.events.(errors := s.events.errors + multiset{m}),
       history := s.history.(failed := s.history.failed + {Clear(m)}))
  }

  function WithJoin(s: State, key: Key): State {
    s.(sessionKey := key, history := s.history.(joinKey := key),
       events := s.events.(connections := s.events.connections + 1))
  }

  /** Sending `msg` from the state in which its task begins. */
  ghost function Sent(s: State, msg: Message, answer: bool, joined: JoinReply, reply: Reply): State {
    var begun := if s.kp.connected then SetKey(s, msg) else Unconnected(s).(phase := Connecting(msg));
    Answer(Join(Connect(begun, answer), joined), reply)
  }

  lemma SentCases(s: State, msg: Message, answer: bool, joined: JoinReply, reply: Reply)
    ensures var t := Sent(s, msg, answer, joined, reply);
            if s.kp.connected then t == Answer(SetKey(s, msg), reply)
            else if !answer then t == Recover(Unconnected(s), msg)
            else if !joined.Joined? then t == Recover(Attached(Unconnected(s)), msg)
            else t == Answer(SetKey(WithJoin(Attached(Unconnected(s)), Key(joined.key)), msg), reply)
  {
  }

  /** The task as a run of the protocol. The answers that it does not wait for change nothing. */
  lemma TaskRun(s: State, answer: bool, joined: JoinReply, reply: Reply)
    requires s.phase == Idle
    ensures var t := After(s, [Begin, ConnectAnswer(answer), JoinAnswer(joined), SendAnswer(reply)]);
            if s.queue == [] then t == s
            else if BackedOff(s) then t == s.(queue := s.queue[1..])
            else t == Sent(s.(queue := s.queue[1..], history := s.history.(began := s.now)), s.queue[0],
                           answer, joined, reply)
    ensures Safe(s) ==> Safe(After(s, [Begin, ConnectAnswer(answer), JoinAnswer(joined), SendAnswer(reply)]))
  {
    if Safe(s) {
      RunSafe(s, [Begin, ConnectAnswer(answer), JoinAnswer(joined), SendAnswer(reply)]);
    }
    Four(s, Begin, ConnectAnswer(answer), JoinAnswer(joined), SendAnswer(reply));
    var t := BeginTask(s);
    if s.queue == [] || BackedOff(s) {
      assert Connect(t, answer) == t && Join(t, joined) == t && Answer(t, reply) == t;
    }
  }

  // Multisets of listeners

  lemma AddOne(all: multiset<Listener>, some: multiset<Listener>, l: Listener)
    ensures all + multiset{l} + some == all + (some + multiset{l})
  {
  }

  lemma TakeOne(all: multiset<Listener>, some: multiset<Listener>, l: Listener)
    ensures all - multiset{l} - some == all - (some + multiset{l})
  {
  }

  lemma TakeNothing(all: multiset<Listener>)
    ensures all - multiset{} == all
  {
  }

  lemma PutAgain(m: map<string, Listener>, key: string, l: Listener)
    ensures (m - {key})[key := l] == m[key := l]
  {
  }

  lemma RowMore(rows: seq<Message>, i: nat)
    requires i < |rows|
    ensures multiset(rows[..i + 1]) == multiset(rows[..i]) + multiset{rows[i]}
  {
    assert rows[..i + 1] == rows[..i] + [rows[i]];
  }
}
