/** The store-and-forward protocol between the launcher and the SIB: one sending task at a time, a link that may
    drop, a table of messages that could not be sent, and events that are handled in any order. */
module Sib {
  datatype Key = NoKey | Key(text: string)

  datatype Message = Message(payload: string, key: Key)

  type Listener = nat

  /** The message without its session key, which is what a row of the table holds. */
  function Clear(m: Message): Message {
    m.(key := NoKey)
  }

  /** What the thread of the send queue is waiting for: an answer to kp.connect, to the join, to kp.send. */
  datatype Phase = Idle | Connecting(msg: Message) | Joining(msg: Message) | Sending(msg: Message)

  datatype JoinReply = Joined(key: string) | Refused | JoinRaised

  datatype Reply = Accepted | NotAccepted | Raised

  /** The events that were published and not handled yet. */
  datatype Events = Events(errors: multiset<Message>, sents: multiset<Message>, connections: nat,
                           toSend: multiset<Message>)

  /** The MQTT client, once it is `created`. */
  datatype Kp = Kp(created: bool, connected: bool, registered: multiset<Listener>)

  /** What has happened: the key that the join of the latest connection returned, when the current task passed the
      back-off test, which messages failed and which the SIB acknowledged. */
  datatype History = History(joinKey: Key, began: int, failed: set<Message>, acked: set<Message>)

  datatype State = State(
    queue: seq<Message>,
    phase: Phase,
    events: Events,
    rows: seq<Message>,
    kp: Kp,
    sessionKey: Key,
    listeners: map<string, Listener>,
    lastError: int,
    now: int,
    history: History
  )

  datatype Action =
    | Submit(msg: Message)
    | Begin
    | ConnectAnswer(ok: bool)
    | JoinAnswer(joined: JoinReply)
    | SendAnswer(reply: Reply)
    | Drop
    | SetClock(time: int)
    | HandleError(msg: Message)
    | HandleSent(msg: Message)
    | HandleConnection
    | HandleData(msg: Message)
    | Subscribe(key: string, listener: Listener)

  const RESPONSE_TIMEOUT := 10000

  function Start(listeners: map<string, Listener>, now: int): State {
    State([], Idle, Events(multiset{}, multiset{}, 0, multiset{}), [], Kp(false, false, multiset{}), NoKey, listeners,
          0, now, History(NoKey, 0, {}, {}))
  }

  // The listeners

  /** The listeners of some of the keys. */
  ghost function Of(m: map<string, Listener>, keys: set<string>): multiset<Listener>
    requires keys <= m.Keys
    decreases |keys|
  {
    if keys == {} then multiset{}
    else
      var k :| k in keys;
      Of(m, keys - {k}) + multiset{m[k]}
  }

  ghost function Values(m: map<string, Listener>): multiset<Listener> {
    Of(m, m.Keys)
  }

  /** The choice of the first key does not matter. */
  lemma {:induction false} OfMore(m: map<string, Listener>, keys: set<string>, k: string)
    requires keys <= m.Keys && k in keys
    ensures Of(m, keys) == Of(m, keys - {k}) + multiset{m[k]}
    decreases |keys|
  {
    var x :| x in keys && Of(m, keys) == Of(m, keys - {x}) + multiset{m[x]};
    if x != k {
      OfMore(m, keys - {x}, k);
      OfMore(m, keys - {k}, x);
      assert keys - {x} - {k} == keys - {k} - {x};
    }
  }

  lemma {:induction false} OfSame(m: map<string, Listener>, n: map<string, Listener>, keys: set<string>)
    requires keys <= m.Keys && keys <= n.Keys && forall k | k in keys :: m[k] == n[k]
    ensures Of(m, keys) == Of(n, keys)
    decreases |keys|
  {
    if keys != {} {
      var k :| k in keys;
      OfMore(m, keys, k);
      OfMore(n, keys, k);
      OfSame(m, n, keys - {k});
    }
  }

  function Replaced(m: map<string, Listener>, k: string): multiset<Listener> {
    if k in m then multiset{m[k]} else multiset{}
  }

  lemma ValuesPut(m: map<string, Listener>, k: string, l: Listener)
    ensures Values(m[k := l]) + Replaced(m, k) == Values(m) + multiset{l}
  {
    var n := m[k := l];
    var rest := m.Keys - {k};
    OfMore(n, n.Keys, k);
    assert n.Keys - {k} == rest;
    OfSame(m, n, rest);
    if k in m {
      OfMore(m, m.Keys, k);
    } else {
      assert rest == m.Keys;
    }
  }

  // The table

  /** A second row with the same key is refused. */
  function Create(rows: seq<Message>, r: Message): seq<Message> {
    if r in rows then rows else rows + [r]
  }

  function Delete(rows: seq<Message>, r: Message): seq<Message> {
    if rows == [] then []
    else if rows[0] == r then rows[1..]
    else [rows[0]] + Delete(rows[1..], r)
  }

  predicate Distinct(rows: seq<Message>) {
    forall i, j | 0 <= i < j < |rows| :: rows[i] != rows[j]
  }

  lemma DistinctMore(r: Message, rest: seq<Message>)
    requires Distinct(rest) && r !in rest
    ensures Distinct([r] + rest)
  {
  }

  lemma {:induction false} DeleteRow(rows: seq<Message>, r: Message)
    requires Distinct(rows)
    ensures Distinct(Delete(rows, r)) && r !in Delete(rows, r)
    ensures forall x :: x in Delete(rows, r) <==> x in rows && x != r
  {
    if rows != [] {
      var rest := Delete(rows[1..], r);
      DeleteRow(rows[1..], r);
      assert rows == [rows[0]] + rows[1..];
      if rows[0] != r {
        DistinctMore(rows[0], rest);
      }
    }
  }

  // One step

  function BackedOff(s: State): bool {
    s.lastError + RESPONSE_TIMEOUT * 2 >= s.now
  }

  /** The request fails with an exception: it is reported, and the link is given up. */
  ghost function Recover(s: State, m: Message): State {
    s.(events := s.events.(errors := s.events.errors + multiset{m}),
       history := s.history.(failed := s.history.failed + {Clear(m)}),
       lastError := s.now,
       kp := s.kp.(registered := s.kp.registered - Values(s.listeners), connected := false),
       phase := Idle)
  }

  function SetKey(s: State, m: Message): State {
    s.(phase := Sending(m.(key := s.sessionKey)))
  }

  /** The first message of the queue is sent over the link that is up. */
  function TakeNext(s: State): State
    requires s.queue != []
  {
    SetKey(s.(queue := s.queue[1..], history := s.history.(began := s.now)), s.queue[0])
  }

  ghost function Reconnect(s: State): State
    requires s.queue != []
  {
    s.(queue := s.queue[1..], history := s.history.(began := s.now), phase := Connecting(s.queue[0]),
       kp := s.kp.(created := true, registered := s.kp.registered - Values(s.listeners)))
  }

  /** During the back-off the message is dropped. */
  ghost function BeginTask(s: State): State {
    if s.phase != Idle || s.queue == [] then s
    else if BackedOff(s) then s.(queue := s.queue[1..])
    else if s.kp.connected then TakeNext(s)
    else Reconnect(s)
  }

  ghost function Connect(s: State, ok: bool): State {
    if !s.phase.Connecting? then s
    else if ok then
      s.(kp := s.kp.(connected := true, registered := s.kp.registered + Values(s.listeners)),
         history := s.history.(joinKey := NoKey), phase := Joining(s.phase.msg))
    else Recover(s, s.phase.msg)
  }

  ghost function Join(s: State, joined: JoinReply): State {
    if !s.phase.Joining? then s
    else if joined.Joined? && s.kp.connected then
      var key := Key(joined.key);
      SetKey(s.(sessionKey := key, history := s.history.(joinKey := key),
                events := s.events.(connections := s.events.connections + 1)), s.phase.msg)
    else Recover(s, s.phase.msg)
  }

  ghost function Answer(s: State, reply: Reply): State {
    if !s.phase.Sending? then s
    else if reply.Raised? || !s.kp.connected then Recover(s, s.phase.msg)
    else if reply.NotAccepted? then s.(phase := Idle)
    else
      var m := s.phase.msg;
      s.(events := s.events.(sents := s.events.sents + multiset{m}),
         history := s.history.(acked := s.history.acked + {Clear(m)}), phase := Idle)
  }

  /** What is registered after a new listener for `key`: there is nothing to register with before the first
      connection is attempted. */
  function Registered(s: State, key: string, l: Listener): multiset<Listener> {
    if s.kp.created then s.kp.registered - Replaced(s.listeners, key) + multiset{l} else s.kp.registered
  }

  function SubscribeListener(s: State, key: string, l: Listener): State {
    s.(listeners := s.listeners[key := l], kp := s.kp.(registered := Registered(s, key, l)))
  }

  // The event handlers

  function StoreFailed(s: State, m: Message): State {
    if m in s.events.errors then
      s.(events := s.events.(errors := s.events.errors - multiset{m}), rows := Create(s.rows, Clear(m)))
    else s
  }

  function DropSent(s: State, m: Message): State {
    if m in s.events.sents then
      s.(events := s.events.(sents := s.events.sents - multiset{m}), rows := Delete(s.rows, Clear(m)))
    else s
  }

  function Republish(s: State): State {
    if s.events.connections > 0 then
      s.(events := s.events.(connections := s.events.connections - 1, toSend := s.events.toSend + multiset(s.rows)))
    else s
  }

  function Resend(s: State, m: Message): State {
    if m in s.events.toSend then
      s.(events := s.events.(toSend := s.events.toSend - multiset{m}), queue := s.queue + [m])
    else s
  }

  function Handle(s: State, a: Action): State {
    match a
    case HandleError(m) => StoreFailed(s, m)
    case HandleSent(m) => DropSent(s, m)
    case HandleConnection => Republish(s)
    case HandleData(m) => Resend(s, m)
    case _ => s
  }

  /** The sending thread. */
  ghost function Task(s: State, a: Action): State {
    match a
    case Begin => BeginTask(s)
    case ConnectAnswer(ok) => Connect(s, ok)
    case JoinAnswer(joined) => Join(s, joined)
    case SendAnswer(reply) => Answer(s, reply)
    case _ => s
  }

  /** The application and the rest of the world. */
  function World(s: State, a: Action): State {
    match a
    case Submit(m) => s.(queue := s.queue + [m])
    case Drop => s.(kp := s.kp.(connected := false))
    case SetClock(t) => s.(now := t)
    case _ => s
  }

  predicate OfTask(a: Action) {
    a.Begin? || a.ConnectAnswer? || a.JoinAnswer? || a.SendAnswer?
  }

  predicate OfWorld(a: Action) {
    a.Submit? || a.Drop? || a.SetClock?
  }

  /** What an action does. An action that is not possible in `s` does nothing. */
  ghost function Next(s: State, a: Action): State {
    if OfTask(a) then Task(s, a)
    else if a.Subscribe? then SubscribeListener(s, a.key, a.listener)
    else if OfWorld(a) then World(s, a)
    else Handle(s, a)
  }

  ghost function After(s: State, run: seq<Action>): State
    decreases |run|
  {
    if run == [] then s else After(Next(s, run[0]), run[1..])
  }

  // Nothing that failed is lost

  predicate ErrorPending(s: State, payload: string) {
    exists m | m in s.events.errors :: m.payload == payload
  }

  /** A message whose sending raised an exception is in the table, or will be put there, or was acknowledged. */
  predicate NothingLost(s: State) {
    forall m | m in s.history.failed :: m in s.rows || ErrorPending(s, m.payload) || m in s.history.acked
  }

  /** Every row is a failed message without a session key, and no message has two rows. */
  predicate RowsSound(s: State) {
    && Distinct(s.rows)
    && (forall r | r in s.rows :: r.key == NoKey && r in s.history.failed)
    && (forall m | m in s.events.errors :: Clear(m) in s.history.failed)
    && forall m | m in s.history.failed :: m.key == NoKey
  }

  predicate SentsSound(s: State) {
    forall m | m in s.events.sents :: Clear(m) in s.history.acked
  }

  /** What is being sent has the key of the latest join, and while the link is up there is such a key. */
  predicate SessionSound(s: State) {
    && (s.phase.Sending? ==> s.history.joinKey.Key? && s.phase.msg.key == s.history.joinKey)
    && (s.kp.connected && !s.phase.Joining? ==>
          s.history.joinKey.Key? && s.sessionKey == s.history.joinKey && !s.phase.Connecting?)
    && (s.phase != Idle ==> s.lastError + RESPONSE_TIMEOUT * 2 < s.history.began)
  }

  predicate Safe(s: State) {
    NothingLost(s) && RowsSound(s) && SentsSound(s) && SessionSound(s)
  }

  lemma RecoverSafe(s: State, m: Message)
    requires Safe(s)
    ensures Safe(Recover(s, m))
  {
    var t := Recover(s, m);
    assert m in t.events.errors;
    forall x | x in t.history.failed
      ensures x in t.rows || ErrorPending(t, x.payload) || x in t.history.acked
    {
      if x in s.history.failed && ErrorPending(s, x.payload) {
        var e :| e in s.events.errors && e.payload == x.payload;
        assert e in t.events.errors;
      }
    }
  }

  lemma HandleErrorSafe(s: State, m: Message)
    requires Safe(s)
    ensures Safe(StoreFailed(s, m))
  {
    if m in s.events.errors {
      var t := StoreFailed(s, m);
      assert Clear(m) in t.rows;
      forall x | x in t.history.failed
        ensures x in t.rows || ErrorPending(t, x.payload) || x in t.history.acked
      {
        if ErrorPending(s, x.payload) {
          var e :| e in s.events.errors && e.payload == x.payload;
          if e == m {
            assert x == Clear(m);
          } else {
            assert e in t.events.errors;
          }
        }
      }
    }
  }

  lemma HandleSentSafe(s: State, m: Message)
    requires Safe(s)
    ensures Safe(DropSent(s, m))
  {
    if m in s.events.sents {
      var t := DropSent(s, m);
      DeleteRow(s.rows, Clear(m));
      forall x | x in t.history.failed
        ensures x in t.rows || ErrorPending(t, x.payload) || x in t.history.acked
      {
        if ErrorPending(s, x.payload) {
          assert ErrorPending(t, x.payload);
        }
      }
    }
  }

  /** Neither the table nor what was reported about messages has changed. */
  predicate SameMessages(s: State, t: State) {
    && t.history.failed == s.history.failed && t.history.acked == s.history.acked
    && t.rows == s.rows && t.events.errors == s.events.errors && t.events.sents == s.events.sents
  }

  lemma StillNothingLost(s: State, t: State)
    requires NothingLost(s) && t.history.failed == s.history.failed && s.history.acked <= t.history.acked
    requires t.rows == s.rows && t.events.errors == s.events.errors
    ensures NothingLost(t)
  {
    forall x | x in t.history.failed
      ensures x in t.rows || ErrorPending(t, x.payload) || x in t.history.acked
    {
      if ErrorPending(s, x.payload) {
        assert ErrorPending(t, x.payload);
      }
    }
  }

  lemma SameMessagesSafe(s: State, t: State)
    requires Safe(s) && SameMessages(s, t) && SessionSound(t)
    ensures Safe(t)
  {
    StillNothingLost(s, t);
  }

  lemma ConnectSafe(s: State, ok: bool)
    requires Safe(s)
    ensures Safe(Connect(s, ok))
  {
    if !s.phase.Connecting? {
    } else if ok {
      SameMessagesSafe(s, Connect(s, ok));
    } else {
      RecoverSafe(s, s.phase.msg);
    }
  }

  lemma JoinSafe(s: State, joined: JoinReply)
    requires Safe(s)
    ensures Safe(Join(s, joined))
  {
    if !s.phase.Joining? {
    } else if joined.Joined? && s.kp.connected {
      SameMessagesSafe(s, Join(s, joined));
    } else {
      RecoverSafe(s, s.phase.msg);
    }
  }

  lemma AnswerSafe(s: State, reply: Reply)
    requires Safe(s)
    ensures Safe(Answer(s, reply))
  {
    if !s.phase.Sending? {
    } else if reply.Raised? || !s.kp.connected {
      RecoverSafe(s, s.phase.msg);
    } else {
      StillNothingLost(s, Answer(s, reply));
    }
  }

  lemma TakeNextSafe(s: State)
    requires Safe(s) && s.phase == Idle && s.queue != [] && s.kp.connected && !BackedOff(s)
    ensures Safe(TakeNext(s))
  {
    SameMessagesSafe(s, TakeNext(s));
  }

  lemma ReconnectSafe(s: State)
    requires Safe(s) && s.phase == Idle && s.queue != [] && !s.kp.connected && !BackedOff(s)
    ensures Safe(Reconnect(s))
  {
    SameMessagesSafe(s, Reconnect(s));
  }

  lemma BeginSafe(s: State)
    requires Safe(s)
    ensures Safe(BeginTask(s))
  {
    if s.phase != Idle || s.queue == [] {
    } else if BackedOff(s) {
      SameMessagesSafe(s, s.(queue := s.queue[1..]));
    } else if s.kp.connected {
      TakeNextSafe(s);
    } else {
      ReconnectSafe(s);
    }
  }

  lemma {:induction false} TaskSafe(s: State, a: Action)
    requires Safe(s)
    ensures Safe(Task(s, a))
  {
    match a
    case Begin => BeginSafe(s);
    case ConnectAnswer(ok) => ConnectSafe(s, ok);
    case JoinAnswer(joined) => JoinSafe(s, joined);
    case SendAnswer(reply) => AnswerSafe(s, reply);
    case _ =>
  }

  lemma WorldSafe(s: State, a: Action)
    requires Safe(s)
    ensures Safe(World(s, a))
  {
    var t := World(s, a);
    assert SessionSound(t) && SameMessages(s, t);
    SameMessagesSafe(s, t);
  }

  lemma SubscribeSafe(s: State, key: string, l: Listener)
    requires Safe(s)
    ensures Safe(SubscribeListener(s, key, l))
  {
    SameMessagesSafe(s, SubscribeListener(s, key, l));
  }

  lemma RepublishSafe(s: State)
    requires Safe(s)
    ensures Safe(Republish(s))
  {
    SameMessagesSafe(s, Republish(s));
  }

  lemma ResendSafe(s: State, m: Message)
    requires Safe(s)
    ensures Safe(Resend(s, m))
  {
    SameMessagesSafe(s, Resend(s, m));
  }

  lemma HandleSafe(s: State, a: Action)
    requires Safe(s)
    ensures Safe(Handle(s, a))
  {
    if a.HandleError? {
      HandleErrorSafe(s, a.msg);
    } else if a.HandleSent? {
      HandleSentSafe(s, a.msg);
    } else if a.HandleConnection? {
      RepublishSafe(s);
    } else if a.HandleData? {
      ResendSafe(s, a.msg);
    }
  }

  lemma {:induction false} StepSafe(s: State, a: Action)
    requires Safe(s)
    ensures Safe(Next(s, a))
  {
    TaskSafe(s, a);
    WorldSafe(s, a);
    HandleSafe(s, a);
    if a.Subscribe? {
      SubscribeSafe(s, a.key, a.listener);
    }
  }

  /** In every state that a run reaches, nothing that failed is lost and what is sent has the right key. */
  lemma {:induction false} RunSafe(s: State, run: seq<Action>)
    requires Safe(s)
    ensures Safe(After(s, run))
    decreases |run|
  {
    if run != [] {
      StepSafe(s, run[0]);
      RunSafe(Next(s, run[0]), run[1..]);
    }
  }

  lemma StartSafe(listeners: map<string, Listener>, now: int, run: seq<Action>)
    ensures Safe(After(Start(listeners, now), run))
  {
    RunSafe(Start(listeners, now), run);
  }

  /** A row goes only when the answer to the same message is handled, and then the SIB has acknowledged it. */
  lemma DeletedWhenAcked(s: State, a: Action, r: Message)
    requires Safe(s) && r in s.rows && r !in Next(s, a).rows
    ensures a.HandleSent? && a.msg in s.events.sents && Clear(a.msg) == r && r in s.history.acked
  {
    if a.HandleSent? && a.msg in s.events.sents {
      DeleteRow(s.rows, Clear(a.msg));
    }
  }

  /** A message counts as acknowledged only from an OK answer to it, and as failed only when its task gives up. */
  lemma HistoryGrows(s: State, a: Action, m: Message)
    ensures m in s.history.acked ==> m in Next(s, a).history.acked
    ensures m in Next(s, a).history.acked && m !in s.history.acked ==>
            a == SendAnswer(Accepted) && s.kp.connected && s.phase.Sending? && m == Clear(s.phase.msg)
    ensures m in s.history.failed ==> m in Next(s, a).history.failed
    ensures m in Next(s, a).history.failed && m !in s.history.failed ==>
            && s.phase != Idle && m == Clear(s.phase.msg)
            && s.phase.msg in Next(s, a).events.errors && Next(s, a).lastError == s.now
  {
  }

  // The order of the queue

  /** The messages that join the queue at a step. */
  function Joins(s: State, a: Action): seq<Message> {
    if a.Submit? || (a.HandleData? && a.msg in s.events.toSend) then [a.msg] else []
  }

  /** The messages that join the queue in a run, in order. */
  ghost function JoinsIn(s: State, run: seq<Action>): seq<Message>
    decreases |run|
  {
    if run == [] then [] else Joins(s, run[0]) + JoinsIn(Next(s, run[0]), run[1..])
  }

  /** A task begins. */
  predicate Starts(s: State, a: Action) {
    a.Begin? && s.phase == Idle && s.queue != []
  }

  /** The messages of the tasks of a run, in order. */
  ghost function TakenIn(s: State, run: seq<Action>): seq<Message>
    decreases |run|
  {
    if run == [] then []
    else (if Starts(s, run[0]) then [s.queue[0]] else []) + TakenIn(Next(s, run[0]), run[1..])
  }

  /** A step takes the first message when a task begins, and appends what joins. */
  lemma {:induction false} StepQueue(s: State, a: Action)
    ensures Next(s, a).queue == (if Starts(s, a) then s.queue[1..] else s.queue) + Joins(s, a)
  {
  }

  lemma TakeThenJoin(queue: seq<Message>, taken: seq<Message>, left: seq<Message>, joins: seq<Message>,
                     laterTaken: seq<Message>, laterLeft: seq<Message>, laterJoins: seq<Message>)
    requires queue == taken + left && laterTaken + laterLeft == left + joins + laterJoins
    ensures taken + laterTaken + laterLeft == queue + (joins + laterJoins)
  {
    assert taken + laterTaken + laterLeft == taken + (laterTaken + laterLeft);
    assert left + joins + laterJoins == left + (joins + laterJoins);
  }

  /** First in, first out: whatever happens, the messages of the tasks, in order, and then the queue are what was queued
      at first and then what joined, in order. So nothing that joins disappears before a task takes it. */
  lemma {:induction false} QueueInOrder(s: State, run: seq<Action>)
    ensures TakenIn(s, run) + After(s, run).queue == s.queue + JoinsIn(s, run)
    decreases |run|
  {
    if run == [] {
      assert [] + s.queue == s.queue + [];
    } else {
      var a, t := run[0], Next(s, run[0]);
      QueueInOrder(t, run[1..]);
      StepQueue(s, a);
      var left := if Starts(s, a) then s.queue[1..] else s.queue;
      var taken := if Starts(s, a) then [s.queue[0]] else [];
      TakeThenJoin(s.queue, taken, left, Joins(s, a), TakenIn(t, run[1..]), After(s, run).queue, JoinsIn(t, run[1..]));
    }
  }

  /** A task is about the message that it takes: it begins to send it, over the link or over a new one, unless the last
      error is at most twice the response timeout ago. */
  lemma TaskIsAboutFirst(s: State)
    requires s.phase == Idle && s.queue != []
    ensures var t := BeginTask(s);
            if s.now <= s.lastError + 20000 then t.phase == Idle
            else if s.kp.connected then t.phase == Sending(s.queue[0].(key := s.sessionKey))
            else t.phase == Connecting(s.queue[0])
  {
  }

  /** From its beginning to its end a task is about one message; only the session key is set before it is sent. */
  lemma {:induction false} TaskKeepsMessage(s: State, a: Action)
    requires s.phase != Idle
    ensures var t := Next(s, a);
            && (t.phase != Idle ==> t.phase.msg.(key := NoKey) == s.phase.msg.(key := NoKey))
            && (t.phase.Sending? && !s.phase.Sending? ==> t.phase.msg == s.phase.msg.(key := t.sessionKey))
            && (t.phase == Idle ==> a.ConnectAnswer? || a.JoinAnswer? || a.SendAnswer?)
  {
  }

  /** The exception that ends a task: no connection, a join that is refused or raises, a send that raises. */
  predicate GivesUp(s: State, a: Action) {
    match s.phase
    case Idle => false
    case Connecting(_) => a == ConnectAnswer(false)
    case Joining(_) => a.JoinAnswer? && (!a.joined.Joined? || !s.kp.connected)
    case Sending(_) => a.SendAnswer? && (a.reply.Raised? || !s.kp.connected)
  }

  /** Exactly then the message is reported, the link is given up and the back-off begins; otherwise nothing is. */
  lemma {:induction false} FailsExactly(s: State, a: Action)
    requires OfTask(a)
    ensures var t := Next(s, a);
            if GivesUp(s, a) then
              && t.phase == Idle && !t.kp.connected && t.lastError == s.now
              && t.events == s.events.(errors := s.events.errors + multiset{s.phase.msg})
              && t.history == s.history.(failed := s.history.failed + {Clear(s.phase.msg)})
            else
              && t.events.errors == s.events.errors && t.history.failed == s.history.failed
              && t.lastError == s.lastError && (s.kp.connected ==> t.kp.connected)
  {
  }

  /** A connection registers the listeners, and an OK join sets the session key and publishes one connection event. */
  lemma Connects(s: State, key: string)
    ensures s.phase.Connecting? ==>
              var t := Next(s, ConnectAnswer(true));
              && t.phase == Joining(s.phase.msg) && t.kp.connected && t.events == s.events
              && t.kp.registered == s.kp.registered + Values(s.listeners) && t.rows == s.rows
    ensures s.phase.Joining? && s.kp.connected ==>
              var t := Next(s, JoinAnswer(Joined(key)));
              && t.phase == Sending(s.phase.msg.(key := Key(key))) && t.sessionKey == Key(key) && t.kp == s.kp
              && t.events == s.events.(connections := s.events.connections + 1) && t.rows == s.rows
  {
  }

  /** An OK answer is published as such, and counted. */
  lemma Acknowledges(s: State)
    requires s.phase.Sending? && s.kp.connected
    ensures var t := Next(s, SendAnswer(Accepted));
            && t.events == s.events.(sents := s.events.sents + multiset{s.phase.msg})
            && t.history == s.history.(acked := s.history.acked + {Clear(s.phase.msg)})
            && t.phase == Idle && t.kp == s.kp && t.lastError == s.lastError
  {
  }

  /** An answer that is not OK ends the task and nothing else: the link stays up, later tasks are not held back, no
      event is published, and the message is neither stored nor counted as acknowledged. */
  lemma NotOk(s: State)
    requires s.phase.Sending? && s.kp.connected
    ensures var t := Next(s, SendAnswer(NotAccepted));
            && t.phase == Idle && t.kp == s.kp && t.sessionKey == s.sessionKey && t.lastError == s.lastError
            && t.events == s.events && t.rows == s.rows && t.queue == s.queue && t.history == s.history
  {
  }

  /** A link that drops while a message is being sent makes its task fail, whatever the SIB answers. */
  lemma {:induction false} DropFails(s: State, reply: Reply)
    requires s.phase.Sending?
    ensures var t := After(s, [Drop, SendAnswer(reply)]);
            && t.phase == Idle && !t.kp.connected && t.lastError == s.now
            && s.phase.msg in t.events.errors && Clear(s.phase.msg) in t.history.failed
  {
    Two(s, Drop, SendAnswer(reply));
  }

  // The listeners of a connection

  predicate ListenersBefore(s: State) {
    && (s.kp.connected ==> s.kp.created)
    && (s.phase != Idle ==> s.kp.created)
    && (s.phase.Connecting? ==> !s.kp.connected && s.kp.registered == multiset{})
    && (!s.kp.created ==> s.kp.registered == multiset{})
  }

  /** While there is a connection exactly the configured listeners are registered, each as often as configured. */
  ghost predicate ListenersSound(s: State) {
    && ListenersBefore(s)
    && s.kp.registered <= Values(s.listeners)
    && (s.kp.connected ==> s.kp.registered == Values(s.listeners))
  }

  lemma Replacing(before: multiset<Listener>, all: multiset<Listener>, gone: multiset<Listener>, l: Listener,
                  after: multiset<Listener>)
    requires after + gone == all + multiset{l} && before <= all && gone <= all
    ensures before - gone + multiset{l} <= after
    ensures before == all ==> before - gone + multiset{l} == after
  {
    forall x: Listener
      ensures (before - gone + multiset{l})[x] <= after[x]
      ensures before == all ==> (before - gone + multiset{l})[x] == after[x]
    {
      assert (after + gone)[x] == (all + multiset{l})[x];
    }
  }

  lemma SubscribeKeepsListeners(s: State, key: string, l: Listener)
    requires ListenersSound(s) && !s.phase.Connecting?
    ensures ListenersSound(SubscribeListener(s, key, l))
  {
    ValuesPut(s.listeners, key, l);
    if s.kp.created {
      var gone := Replaced(s.listeners, key);
      if key in s.listeners {
        OfMore(s.listeners, s.listeners.Keys, key);
      }
      Replacing(s.kp.registered, Values(s.listeners), gone, l, Values(s.listeners[key := l]));
    }
  }

  lemma RecoverKeepsListeners(s: State, m: Message)
    requires ListenersSound(s) && s.kp.created
    ensures ListenersSound(Recover(s, m))
  {
    assert s.kp.registered - Values(s.listeners) == multiset{};
  }

  lemma ReconnectKeepsListeners(s: State)
    requires ListenersSound(s) && s.queue != [] && !s.kp.connected
    ensures ListenersSound(Reconnect(s))
  {
    assert s.kp.registered - Values(s.listeners) == multiset{};
  }

  lemma BeginKeepsListeners(s: State)
    requires ListenersSound(s)
    ensures ListenersSound(BeginTask(s))
  {
    if s.queue != [] && !s.kp.connected {
      ReconnectKeepsListeners(s);
    }
  }

  lemma ConnectKeepsListeners(s: State, ok: bool)
    requires ListenersSound(s)
    ensures ListenersSound(Connect(s, ok))
  {
    if s.phase.Connecting? {
      RecoverKeepsListeners(s, s.phase.msg);
    }
  }

  lemma JoinKeepsListeners(s: State, joined: JoinReply)
    requires ListenersSound(s)
    ensures ListenersSound(Join(s, joined))
  {
    if s.phase.Joining? {
      RecoverKeepsListeners(s, s.phase.msg);
    }
  }

  lemma AnswerKeepsListeners(s: State, reply: Reply)
    requires ListenersSound(s)
    ensures ListenersSound(Answer(s, reply))
  {
    if s.phase.Sending? {
      RecoverKeepsListeners(s, s.phase.msg);
    }
  }

  lemma {:induction false} TaskKeepsListeners(s: State, a: Action)
    requires ListenersSound(s)
    ensures ListenersSound(Task(s, a))
  {
    match a
    case Begin => BeginKeepsListeners(s);
    case ConnectAnswer(ok) => ConnectKeepsListeners(s, ok);
    case JoinAnswer(joined) => JoinKeepsListeners(s, joined);
    case SendAnswer(reply) => AnswerKeepsListeners(s, reply);
    case _ =>
  }

  lemma SameLinkKeepsListeners(s: State, t: State)
    requires ListenersSound(s) && t.listeners == s.listeners && t.kp.registered == s.kp.registered && t.phase == s.phase
    requires t.kp.created == s.kp.created && (t.kp.connected ==> s.kp.connected)
    ensures ListenersSound(t)
  {
  }

  lemma WorldKeepsListeners(s: State, a: Action)
    requires ListenersSound(s)
    ensures ListenersSound(World(s, a))
  {
    SameLinkKeepsListeners(s, World(s, a));
  }

  lemma HandleKeepsListeners(s: State, a: Action)
    requires ListenersSound(s)
    ensures ListenersSound(Handle(s, a))
  {
    SameLinkKeepsListeners(s, Handle(s, a));
  }

  lemma {:induction false} StepKeepsListeners(s: State, a: Action)
    requires ListenersSound(s) && !(a.Subscribe? && s.phase.Connecting?)
    ensures ListenersSound(Next(s, a))
  {
    if a.Subscribe? {
      SubscribeKeepsListeners(s, a.key, a.listener);
    } else {
      TaskKeepsListeners(s, a);
      WorldKeepsListeners(s, a);
      HandleKeepsListeners(s, a);
    }
  }

  /** No listener is subscribed while kp.connect is under way. */
  ghost predicate NoneLate(s: State, run: seq<Action>)
    decreases |run|
  {
    run == [] || (!(run[0].Subscribe? && s.phase.Connecting?) && NoneLate(Next(s, run[0]), run[1..]))
  }

  lemma {:induction false} RunKeepsListeners(s: State, run: seq<Action>)
    requires ListenersSound(s) && NoneLate(s, run)
    ensures ListenersSound(After(s, run))
    decreases |run|
  {
    if run != [] {
      StepKeepsListeners(s, run[0]);
      RunKeepsListeners(Next(s, run[0]), run[1..]);
    }
  }

  /** Reconnecting never registers a listener twice: after any run, a connection has exactly the configured
      listeners, and without a connection none of them is left more often than it is configured. */
  lemma ListenersOnce(listeners: map<string, Listener>, now: int, run: seq<Action>)
    requires NoneLate(Start(listeners, now), run)
    ensures ListenersSound(After(Start(listeners, now), run))
  {
    RunKeepsListeners(Start(listeners, now), run);
  }

  lemma EmptyAdds(r: multiset<Listener>, all: multiset<Listener>)
    ensures r + all == all <==> r == multiset{}
  {
    if r != multiset{} {
      var l :| l in r;
      assert (r + all)[l] > all[l];
    }
  }

  /** One step while kp.connect is not answered. */
  lemma {:induction false} StepConnecting(s: State, a: Action)
    requires s.phase.Connecting? && s.kp.created && !a.ConnectAnswer?
    ensures var t := Next(s, a);
            && t.phase == s.phase && t.kp.created
            && (if a.Subscribe? then t.kp.registered != multiset{} else t.kp.registered == s.kp.registered)
  {
    if a.Subscribe? {
      assert a.listener in Next(s, a).kp.registered;
    }
  }

  /** Until kp.connect is answered, only subscriptions register listeners, and none of them is taken away again. */
  lemma {:induction false} WhileConnecting(s: State, run: seq<Action>)
    requires s.phase.Connecting? && s.kp.created && forall a | a in run :: !a.ConnectAnswer?
    ensures After(s, run).phase == s.phase
    ensures s.kp.registered != multiset{} ==> After(s, run).kp.registered != multiset{}
    ensures s.kp.registered == multiset{} ==>
            (After(s, run).kp.registered == multiset{} <==> forall a | a in run :: !a.Subscribe?)
    decreases |run|
  {
    if run != [] {
      assert run == [run[0]] + run[1..];
      StepConnecting(s, run[0]);
      WhileConnecting(Next(s, run[0]), run[1..]);
    }
  }

  /** Exactly when a successful connect registers every configured listener once: whatever happened since the
      listeners were removed, none was subscribed. */
  lemma ConnectExactly(s: State, run: seq<Action>)
    requires s.phase.Connecting? && s.kp.created && s.kp.registered == multiset{}
    requires forall a | a in run :: !a.ConnectAnswer?
    ensures var e := After(s, run);
            Connect(e, true).kp.registered == Values(e.listeners) <==> forall a | a in run :: !a.Subscribe?
  {
    WhileConnecting(s, run);
    var e := After(s, run);
    EmptyAdds(e.kp.registered, Values(e.listeners));
  }

  /** The same from any state with the right registrations in which a task begins to reconnect. */
  lemma ReconnectExactly(s: State, run: seq<Action>)
    requires ListenersSound(s) && s.phase == Idle && s.queue != [] && !s.kp.connected && !BackedOff(s)
    requires forall a | a in run :: !a.ConnectAnswer?
    ensures var e := After(BeginTask(s), run);
            Connect(e, true).kp.registered == Values(e.listeners) <==> forall a | a in run :: !a.Subscribe?
  {
    ReconnectKeepsListeners(s);
    ConnectExactly(BeginTask(s), run);
  }

  /** Every successful connect of the run registers exactly the configured listeners. */
  ghost predicate ConnectsRight(s: State, run: seq<Action>)
    decreases |run|
  {
    run == [] ||
    (var t := Next(s, run[0]);
     && (run[0] == ConnectAnswer(true) && s.phase.Connecting? ==> t.kp.registered == Values(t.listeners))
     && ConnectsRight(t, run[1..]))
  }

  /** A listener was subscribed since kp.connect was called, which is not answered yet. */
  predicate StillLate(s: State, a: Action, late: bool) {
    s.phase.Connecting? && !a.ConnectAnswer? && (late || a.Subscribe?)
  }

  /** No listener is subscribed while a kp.connect is under way that succeeds in the end. */
  ghost predicate NoneDoubled(s: State, run: seq<Action>, late: bool)
    decreases |run|
  {
    run == [] ||
    (!(late && run[0] == ConnectAnswer(true)) && NoneDoubled(Next(s, run[0]), run[1..], StillLate(s, run[0], late)))
  }

  /** The registrations are right, but for listeners that were subscribed while kp.connect is under way. */
  ghost predicate SoundButLate(s: State, late: bool) {
    if !late then ListenersSound(s)
    else
      && s.phase.Connecting? && s.kp.created && !s.kp.connected
      && s.kp.registered != multiset{} && s.kp.registered <= Values(s.listeners)
  }

  lemma LateSubscription(s: State, key: string, l: Listener, late: bool)
    requires SoundButLate(s, late) && s.phase.Connecting?
    ensures SoundButLate(SubscribeListener(s, key, l), true)
  {
    ValuesPut(s.listeners, key, l);
    var gone := Replaced(s.listeners, key);
    if key in s.listeners {
      OfMore(s.listeners, s.listeners.Keys, key);
    }
    Replacing(s.kp.registered, Values(s.listeners), gone, l, Values(s.listeners[key := l]));
    assert l in SubscribeListener(s, key, l).kp.registered;
  }

  lemma {:induction false} LateStep(s: State, a: Action)
    requires SoundButLate(s, true) && a != ConnectAnswer(true)
    ensures SoundButLate(Next(s, a), StillLate(s, a, true))
  {
    if a.ConnectAnswer? {
      assert s.kp.registered - Values(s.listeners) == multiset{};
    } else if a.Subscribe? {
      LateSubscription(s, a.key, a.listener, true);
    }
  }

  lemma {:induction false} StepSoundButLate(s: State, a: Action, late: bool)
    requires SoundButLate(s, late) && !(late && a == ConnectAnswer(true))
    ensures SoundButLate(Next(s, a), StillLate(s, a, late))
  {
    if late {
      LateStep(s, a);
    } else if a.Subscribe? && s.phase.Connecting? {
      LateSubscription(s, a.key, a.listener, late);
    } else {
      StepKeepsListeners(s, a);
    }
  }

  lemma {:induction false} ConnectsExactly(s: State, run: seq<Action>, late: bool)
    requires SoundButLate(s, late)
    ensures ConnectsRight(s, run) <==> NoneDoubled(s, run, late)
    decreases |run|
  {
    if run != [] {
      if run[0] == ConnectAnswer(true) && s.phase.Connecting? {
        EmptyAdds(s.kp.registered, Values(s.listeners));
      }
      if !(late && run[0] == ConnectAnswer(true)) {
        StepSoundButLate(s, run[0], late);
        ConnectsExactly(Next(s, run[0]), run[1..], StillLate(s, run[0], late));
      }
    }
  }

  /** Over every run: all successful connects register each configured listener once iff no listener is subscribed
      while such a connect is under way. */
  lemma ListenersExactly(listeners: map<string, Listener>, now: int, run: seq<Action>)
    ensures ConnectsRight(Start(listeners, now), run) <==> NoneDoubled(Start(listeners, now), run, false)
  {
    ConnectsExactly(Start(listeners, now), run, false);
  }

  lemma FirstConnect(m: Message)
    ensures var s := Next(Next(Start(map[], 20001), Submit(m)), Begin);
            s.phase == Connecting(m) && s.kp.created && s.kp.registered == multiset{} && s.listeners == map[]
  {
    var s := Start(map[], 20001).(queue := [m]);
    assert Next(Start(map[], 20001), Submit(m)) == s;
    assert BeginTask(s) == Reconnect(s);
  }

  /** A listener that is subscribed while kp.connect is under way is registered twice. */
  lemma {:induction false} LateListener(m: Message)
    ensures var connecting := Next(Next(Start(map[], 20001), Submit(m)), Begin);
            var s := Next(Next(connecting, Subscribe("k", 7)), ConnectAnswer(true));
            s.kp.connected && s.listeners == map["k" := 7] && s.kp.registered == multiset{7, 7}
  {
    FirstConnect(m);
    var late := SubscribeListener(Next(Next(Start(map[], 20001), Submit(m)), Begin), "k", 7);
    assert late.kp.registered == multiset{7};
    OneListener(late.listeners);
  }

  lemma OneListener(m: map<string, Listener>)
    requires m == map["k" := 7]
    ensures Values(m) == multiset{7}
  {
    OfMore(m, m.Keys, "k");
    assert m.Keys - {"k"} == {};
  }

  // Draining the table after a reconnect

  /** The link is up, and the back-off after an error is over. */
  predicate Up(s: State) {
    s.kp.connected && (s.phase.Idle? || s.phase.Sending?) && !BackedOff(s)
  }

  /** The SIB answers OK, the link does not drop and the clock is not set back. */
  predicate Good(s: State, a: Action) {
    match a
    case ConnectAnswer(ok) => ok
    case JoinAnswer(joined) => joined.Joined?
    case SendAnswer(reply) => reply.Accepted?
    case Drop => false
    case SetClock(t) => t >= s.now
    case _ => true
  }

  ghost predicate GoodRun(s: State, run: seq<Action>)
    decreases |run|
  {
    run == [] || (Good(s, run[0]) && GoodRun(Next(s, run[0]), run[1..]))
  }

  /** The task that reconnected has passed the back-off test, so that the tasks after it will pass too. */
  lemma UpAfterJoin(s: State, key: string)
    requires SessionSound(s) && s.phase.Joining? && s.kp.connected && s.history.began <= s.now
    ensures Up(Join(s, Joined(key))) && Join(s, Joined(key)).events.connections > 0
  {
  }

  lemma StaysUp(s: State, a: Action)
    requires Up(s) && Good(s, a)
    ensures Up(Next(s, a)) && Next(s, a).events.errors <= s.events.errors
  {
  }

  /** While the link is up no message is dropped by the back-off test: the first of the queue is sent. */
  lemma NotBypassed(s: State)
    requires Up(s) && s.phase == Idle && s.queue != []
    ensures BeginTask(s).phase == Sending(s.queue[0].(key := s.sessionKey)) && BeginTask(s).queue == s.queue[1..]
  {
  }

  predicate Has(ms: multiset<Message>, payload: string) {
    exists m | m in ms :: m.payload == payload
  }

  predicate Queued(q: seq<Message>, payload: string) {
    exists i | 0 <= i < |q| :: q[i].payload == payload
  }

  predicate OnItsWay(s: State, p: string) {
    || Has(s.events.toSend, p) || Queued(s.queue, p)
    || (s.phase.Sending? && s.phase.msg.payload == p) || Has(s.events.sents, p)
  }

  /** A row for `p` will be deleted, and none will be made. */
  predicate Leaving(s: State, p: string) {
    !ErrorPending(s, p) && (Message(p, NoKey) in s.rows ==> OnItsWay(s, p))
  }

  predicate Quiet(s: State) {
    && s.phase == Idle && s.queue == [] && s.events.connections == 0
    && s.events.errors == multiset{} && s.events.sents == multiset{} && s.events.toSend == multiset{}
  }

  lemma BeginLeaves(s: State, p: string)
    requires Up(s) && Leaving(s, p)
    ensures Leaving(BeginTask(s), p)
  {
    var t := BeginTask(s);
    if t != s {
      NotBypassed(s);
      assert t.rows == s.rows && t.events == s.events;
      if Queued(s.queue, p) {
        var i :| 0 <= i < |s.queue| && s.queue[i].payload == p;
        assert i > 0 ==> t.queue[i - 1].payload == p;
      }
    }
  }

  lemma AnswerLeaves(s: State, p: string)
    requires Up(s) && Leaving(s, p)
    ensures Leaving(Answer(s, Accepted), p)
  {
    var t := Answer(s, Accepted);
    if s.phase.Sending? {
      var m := s.phase.msg;
      assert m in t.events.sents && t.rows == s.rows && t.events.errors == s.events.errors;
      if Has(s.events.sents, p) {
        var x :| x in s.events.sents && x.payload == p;
        assert x in t.events.sents;
      }
    }
  }

  lemma StoreLeaves(s: State, m: Message, p: string)
    requires Leaving(s, p)
    ensures Leaving(StoreFailed(s, m), p)
  {
    var t := StoreFailed(s, m);
    assert t.events.errors <= s.events.errors;
    if m in s.events.errors {
      assert m.payload != p;
    }
    assert OnItsWay(s, p) == OnItsWay(t, p);
  }

  lemma DropLeaves(s: State, m: Message, p: string)
    requires Leaving(s, p) && RowsSound(s)
    ensures Leaving(DropSent(s, m), p)
  {
    var t := DropSent(s, m);
    if m in s.events.sents {
      DeleteRow(s.rows, Clear(m));
      assert t.events.errors == s.events.errors;
      if m.payload == p {
        assert Message(p, NoKey) !in t.rows;
      } else if Has(s.events.sents, p) {
        var x :| x in s.events.sents && x.payload == p;
        assert x in t.events.sents;
      }
    }
  }

  lemma RepublishLeaves(s: State, p: string)
    requires Leaving(s, p)
    ensures Leaving(Republish(s), p)
  {
    var t := Republish(s);
    if Has(s.events.toSend, p) {
      var x :| x in s.events.toSend && x.payload == p;
      assert x in t.events.toSend;
    }
  }

  lemma ResendLeaves(s: State, m: Message, p: string)
    requires Leaving(s, p)
    ensures Leaving(Resend(s, m), p)
  {
    var t := Resend(s, m);
    if m in s.events.toSend {
      assert t.queue[|s.queue|] == m;
      if Has(s.events.toSend, p) && m.payload != p {
        var x :| x in s.events.toSend && x.payload == p;
        assert x in t.events.toSend;
      }
      QueuedMore(s.queue, m, p);
    }
  }

  lemma QueuedMore(q: seq<Message>, m: Message, p: string)
    ensures Queued(q + [m], p) <==> Queued(q, p) || m.payload == p
  {
    if Queued(q, p) {
      var i :| 0 <= i < |q| && q[i].payload == p;
      assert (q + [m])[i].payload == p;
    }
    assert (q + [m])[|q|] == m;
  }

  lemma WorldLeaves(s: State, a: Action, p: string)
    requires Leaving(s, p)
    ensures Leaving(World(s, a), p)
  {
    if a.Submit? {
      QueuedMore(s.queue, a.msg, p);
    }
  }

  /** A step with the link up and an OK answer keeps every row that is leaving on its way. */
  lemma StepLeaves(s: State, a: Action, p: string)
    requires Up(s) && Good(s, a) && RowsSound(s) && Leaving(s, p)
    ensures Leaving(Next(s, a), p)
  {
    match a
    case Begin => BeginLeaves(s, p);
    case SendAnswer(_) => AnswerLeaves(s, p);
    case HandleError(m) => StoreLeaves(s, m, p);
    case HandleSent(m) => DropLeaves(s, m, p);
    case HandleConnection => RepublishLeaves(s, p);
    case HandleData(m) => ResendLeaves(s, m, p);
    case _ => if OfWorld(a) { WorldLeaves(s, a, p); }
  }

  lemma {:induction false} RunLeaves(s: State, run: seq<Action>, p: string)
    requires Safe(s) && Up(s) && GoodRun(s, run) && Leaving(s, p)
    ensures Leaving(After(s, run), p)
    decreases |run|
  {
    if run != [] {
      StepLeaves(s, run[0], p);
      StaysUp(s, run[0]);
      StepSafe(s, run[0]);
      RunLeaves(Next(s, run[0]), run[1..], p);
    }
  }

  lemma {:induction false} RunStaysUp(s: State, run: seq<Action>)
    requires Safe(s) && Up(s) && GoodRun(s, run)
    ensures Safe(After(s, run)) && Up(After(s, run)) && After(s, run).events.errors <= s.events.errors
    decreases |run|
  {
    if run != [] {
      StaysUp(s, run[0]);
      StepSafe(s, run[0]);
      RunStaysUp(Next(s, run[0]), run[1..]);
    }
  }

  /** What happens to the rows that the handler of a connection event saw in `s`, once everything is consumed. */
  ghost predicate Drains(s: State) {
    forall run: seq<Action> | GoodRun(Republish(s), run) && Quiet(After(Republish(s), run)) ::
      forall r | r in s.rows :: r !in After(Republish(s), run).rows
  }

  lemma RepublishedLeave(s: State, r: Message)
    requires RowsSound(s) && s.events.connections > 0 && r in s.rows && !ErrorPending(s, r.payload)
    ensures Leaving(Republish(s), r.payload)
  {
    assert r in Republish(s).events.toSend;
  }

  lemma RunDrains(s: State, run: seq<Action>, r: Message)
    requires Safe(s) && Up(s) && s.events.connections > 0 && r in s.rows && !ErrorPending(s, r.payload)
    requires GoodRun(Republish(s), run) && Quiet(After(Republish(s), run))
    ensures r !in After(Republish(s), run).rows
  {
    RepublishedLeave(s, r);
    RepublishSafe(s);
    RunLeaves(Republish(s), run, r.payload);
    assert r == Message(r.payload, NoKey);
  }

  // That everything can be consumed

  /** Everything is consumed but the error events in `keep`. */
  predicate Consumed(s: State, keep: multiset<Message>) {
    && s.phase == Idle && s.queue == [] && s.events.connections == 0
    && s.events.errors == keep && s.events.sents == multiset{} && s.events.toSend == multiset{}
  }

  function Tasks(s: State): nat {
    2 * |s.queue| + if s.phase.Sending? then 1 else 0
  }

  /** What is left to do, an event before the events that come of it. */
  predicate Less(t: State, s: State) {
    var e, f := t.events, s.events;
    e.connections < f.connections || (e.connections == f.connections &&
    (|e.toSend| < |f.toSend| || (|e.toSend| == |f.toSend| &&
    (Tasks(t) < Tasks(s) || (Tasks(t) == Tasks(s) &&
    (|e.sents| < |f.sents| || (|e.sents| == |f.sents| && |e.errors| < |f.errors|)))))))
  }

  lemma ResendLess(s: State, m: Message)
    requires s.events.connections == 0 && m in s.events.toSend
    ensures Less(Resend(s, m), s)
  {
  }

  lemma AnswerLess(s: State)
    requires Up(s) && s.events.connections == 0 && s.events.toSend == multiset{} && s.phase.Sending?
    ensures Less(Answer(s, Accepted), s)
  {
  }

  lemma BeginLess(s: State)
    requires Up(s) && s.events.connections == 0 && s.events.toSend == multiset{} && s.phase == Idle && s.queue != []
    ensures Less(BeginTask(s), s)
  {
  }

  predicate HandlersLeft(s: State) {
    s.events.connections == 0 && s.events.toSend == multiset{} && s.phase == Idle && s.queue == []
  }

  lemma DropLess(s: State, m: Message)
    requires HandlersLeft(s) && m in s.events.sents
    ensures Less(DropSent(s, m), s)
  {
  }

  lemma StoreLess(s: State, m: Message)
    requires HandlersLeft(s) && m in s.events.errors
    ensures Less(StoreFailed(s, m), s)
  {
  }

  lemma NextToDo(s: State, keep: multiset<Message>) returns (a: Action)
    requires Up(s) && keep <= s.events.errors && !Consumed(s, keep)
    ensures Good(s, a) && Less(Next(s, a), s) && keep <= Next(s, a).events.errors
  {
    if s.events.connections > 0 {
      a := HandleConnection;
    } else if s.events.toSend != multiset{} {
      var m :| m in s.events.toSend;
      a := HandleData(m);
      ResendLess(s, m);
    } else if s.phase.Sending? {
      a := SendAnswer(Accepted);
      AnswerLess(s);
    } else if s.queue != [] {
      a := Begin;
      BeginLess(s);
    } else {
      a := NextToHandle(s, keep);
    }
  }

  lemma NextToHandle(s: State, keep: multiset<Message>) returns (a: Action)
    requires HandlersLeft(s) && keep <= s.events.errors && !Consumed(s, keep)
    ensures Good(s, a) && Less(Next(s, a), s) && keep <= Next(s, a).events.errors
  {
    if s.events.sents != multiset{} {
      var m :| m in s.events.sents;
      a := HandleSent(m);
      DropLess(s, m);
    } else {
      var m := Extra(s.events.errors, keep);
      a := HandleError(m);
      StoreLess(s, m);
    }
  }

  lemma Extra(all: multiset<Message>, keep: multiset<Message>) returns (m: Message)
    requires keep <= all && keep != all
    ensures m in all && keep <= all - multiset{m}
  {
    assert all == keep + (all - keep);
    m :| m in all - keep;
  }

  lemma {:induction false} Consume(s: State, keep: multiset<Message>) returns (run: seq<Action>)
    requires Up(s) && keep <= s.events.errors
    ensures GoodRun(s, run) && Consumed(After(s, run), keep)
    decreases s.events.connections, |s.events.toSend|, Tasks(s), |s.events.sents|, |s.events.errors|
  {
    if Consumed(s, keep) {
      run := [];
    } else {
      var a := NextToDo(s, keep);
      StaysUp(s, a);
      var rest := Consume(Next(s, a), keep);
      run := [a] + rest;
      assert run[1..] == rest;
    }
  }

  lemma {:induction false} OneMore(s: State, run: seq<Action>, a: Action)
    requires GoodRun(s, run) && Good(After(s, run), a)
    ensures GoodRun(s, run + [a]) && After(s, run + [a]) == Next(After(s, run), a)
    decreases |run|
  {
    if run == [] {
      assert [] + [a] == [a];
    } else {
      assert (run + [a])[1..] == run[1..] + [a];
      OneMore(Next(s, run[0]), run[1..], a);
    }
  }

  /** An error event for a row, handled last, makes the row again. */
  lemma {:induction false} RowReturns(s: State, m: Message) returns (run: seq<Action>)
    requires Up(s) && m in s.events.errors
    ensures GoodRun(s, run) && Quiet(After(s, run)) && Clear(m) in After(s, run).rows
  {
    var most := Consume(s, multiset{m});
    var t := After(s, most);
    assert Clear(m) in Create(t.rows, Clear(m));
    OneMore(s, most, HandleError(m));
    run := most + [HandleError(m)];
  }

  /** The table is drained of all rows that the connection event's handler saw, in whatever order events and tasks
      are consumed, exactly if no error event for one of these rows was still pending. */
  lemma DrainsExactly(s: State)
    requires Safe(s) && Up(s) && s.events.connections > 0
    ensures Drains(s) <==> forall r | r in s.rows :: !ErrorPending(s, r.payload)
  {
    if r :| r in s.rows && ErrorPending(s, r.payload) {
      var m :| m in s.events.errors && m.payload == r.payload;
      var run := RowReturns(Republish(s), m);
      assert Clear(m) == r;
    } else {
      forall run: seq<Action>, r | GoodRun(Republish(s), run) && Quiet(After(Republish(s), run)) && r in s.rows
        ensures r !in After(Republish(s), run).rows
      {
        RunDrains(s, run, r);
      }
    }
  }

  // A run after which a row returns

  lemma {:induction false} AfterBoth(s: State, first: seq<Action>, rest: seq<Action>)
    ensures After(s, first + rest) == After(After(s, first), rest)
    decreases |first|
  {
    if first == [] {
      assert first + rest == rest;
    } else {
      assert (first + rest)[1..] == first[1..] + rest;
      AfterBoth(Next(s, first[0]), first[1..], rest);
    }
  }

  lemma {:induction false} Two(s: State, a: Action, b: Action)
    ensures After(s, [a, b]) == Next(Next(s, a), b)
  {
    assert [a, b][1..] == [b] && [b][1..] == [];
    assert After(Next(s, a), [b]) == After(Next(Next(s, a), b), []);
  }

  lemma {:induction false} Four(s: State, a: Action, b: Action, c: Action, d: Action)
    ensures After(s, [a, b, c, d]) == Next(Next(Next(Next(s, a), b), c), d)
  {
    AfterBoth(s, [a, b], [c, d]);
    Two(s, a, b);
    Two(Next(Next(s, a), b), c, d);
    assert [a, b] + [c, d] == [a, b, c, d];
  }

  const NOTHING := Events(multiset{}, multiset{}, 0, multiset{})
  const M := Message("m", NoKey)
  const N := Message("n", NoKey)

  /** A state without listeners, whose only row is the one of M. */
  function RowOfM(queue: seq<Message>, phase: Phase, events: Events, connected: bool, lastError: int, now: int,
                  history: History): State {
    State(queue, phase, events, [M], Kp(true, connected, multiset{}), history.joinKey, map[], lastError, now, history)
  }

  /** Connecting for M fails, */
  lemma FailsOnce()
    ensures After(Start(map[], 0), [SetClock(20001), Submit(M), Begin, ConnectAnswer(false)]) ==
            RowOfM([], Idle, NOTHING.(errors := multiset{M}), false, 20001, 20001, History(NoKey, 20001, {M}, {}))
            .(rows := [])
  {
    var s := Start(map[], 0).(queue := [M], now := 20001);
    Four(Start(map[], 0), SetClock(20001), Submit(M), Begin, ConnectAnswer(false));
    assert Values(map[]) == multiset{};
    assert BeginTask(s) == Reconnect(s);
  }

  /** and M is stored; then a task for N begins to reconnect, */
  lemma Stored(s: State)
    requires s == RowOfM([], Idle, NOTHING.(errors := multiset{M}), false, 20001, 20001,
                         History(NoKey, 20001, {M}, {})).(rows := [])
    ensures After(s, [HandleError(M), SetClock(50000), Submit(N), Begin]) ==
            RowOfM([], Connecting(N), NOTHING, false, 20001, 50000, History(NoKey, 50000, {M}, {}))
  {
    Four(s, HandleError(M), SetClock(50000), Submit(N), Begin);
    assert Values(map[]) == multiset{};
  }

  /** and M is taken from the table, */
  lemma Republished(s: State)
    requires s == RowOfM([], Connecting(N), NOTHING, false, 20001, 50000, History(NoKey, 50000, {M}, {}))
    ensures After(s, [ConnectAnswer(true), JoinAnswer(Joined("k")), HandleConnection, HandleData(M)]) ==
            RowOfM([M], Sending(N.(key := Key("k"))), NOTHING, true, 20001, 50000,
                   History(Key("k"), 50000, {M}, {}))
  {
    Four(s, ConnectAnswer(true), JoinAnswer(Joined("k")), HandleConnection, HandleData(M));
    assert Values(map[]) == multiset{};
  }

  /** but sending it fails again, */
  lemma FailsAgain(s: State)
    requires s == RowOfM([], Sending(M.(key := Key("k"))), NOTHING.(sents := multiset{N.(key := Key("k"))}), true,
                         20001, 50000, History(Key("k"), 50000, {M}, {N}))
    ensures Next(Next(s, SendAnswer(Raised)), SetClock(80000)) ==
            RowOfM([], Idle, Events(multiset{M.(key := Key("k"))}, multiset{N.(key := Key("k"))}, 0, multiset{}), false,
                   50000, 80000, History(Key("k"), 50000, {M}, {N}))
  {
    assert Values(map[]) == multiset{};
  }

  lemma FailsTwice(s: State)
    requires s == RowOfM([M], Sending(N.(key := Key("k"))), NOTHING, true, 20001, 50000,
                         History(Key("k"), 50000, {M}, {}))
    ensures After(s, [SendAnswer(Accepted), Begin, SendAnswer(Raised), SetClock(80000)]) ==
            RowOfM([], Idle, Events(multiset{M.(key := Key("k"))}, multiset{N.(key := Key("k"))}, 0, multiset{}), false,
                   50000, 80000, History(Key("k"), 50000, {M}, {N}))
  {
    Four(s, SendAnswer(Accepted), Begin, SendAnswer(Raised), SetClock(80000));
    FailsAgain(BeginTask(Answer(s, Accepted)));
  }

  /** and its error event is still pending when the next task has reconnected. */
  lemma Reconnected(s: State)
    requires s == RowOfM([], Idle, Events(multiset{M.(key := Key("k"))}, multiset{N.(key := Key("k"))}, 0, multiset{}),
                         false, 50000, 80000, History(Key("k"), 50000, {M}, {N}))
    ensures var t := After(s, [Submit(N), Begin, ConnectAnswer(true), JoinAnswer(Joined("k"))]);
            Up(t) && t.events.connections > 0 && t.rows == [M] && M.(key := Key("k")) in t.events.errors
  {
    Four(s, Submit(N), Begin, ConnectAnswer(true), JoinAnswer(Joined("k")));
    assert Values(map[]) == multiset{};
  }

  /** A run that ends with the link up and a connection event, which does not drain the row that its handler sees. */
  lemma {:induction false} UndrainedRow() returns (run: seq<Action>, s: State)
    ensures s == After(Start(map[], 0), run) && Safe(s) && Up(s) && s.events.connections > 0
    ensures s.rows == [M] && !Drains(s)
  {
    var a := [SetClock(20001), Submit(M), Begin, ConnectAnswer(false)];
    var b := [HandleError(M), SetClock(50000), Submit(N), Begin];
    var c := [ConnectAnswer(true), JoinAnswer(Joined("k")), HandleConnection, HandleData(M)];
    var d := [SendAnswer(Accepted), Begin, SendAnswer(Raised), SetClock(80000)];
    var e := [Submit(N), Begin, ConnectAnswer(true), JoinAnswer(Joined("k"))];
    var start := Start(map[], 0);
    FailsOnce();
    Stored(After(start, a));
    AfterBoth(start, a, b);
    Republished(After(start, a + b));
    AfterBoth(start, a + b, c);
    FailsTwice(After(start, a + b + c));
    AfterBoth(start, a + b + c, d);
    Reconnected(After(start, a + b + c + d));
    AfterBoth(start, a + b + c + d, e);
    run := a + b + c + d + e;
    s := After(start, run);
    StartSafe(map[], 0, run);
    assert M in s.rows && ErrorPending(s, M.payload);
    DrainsExactly(s);
  }

  /** The same, from the OK answer to the join of a task that reconnected in any state that can be reached: if then
      every answer is OK, the link does not drop and the clock is not set back, the handler of a connection event
      drains what it sees. */
  lemma DrainsAfterReconnect(start: State, run: seq<Action>, key: string, before: seq<Action>)
    requires Safe(start) && After(start, run).phase.Joining? && After(start, run).kp.connected
    requires After(start, run).history.began <= After(start, run).now
    requires GoodRun(Join(After(start, run), Joined(key)), before)
    ensures var s := After(Join(After(start, run), Joined(key)), before);
            s.events.connections > 0 ==> (Drains(s) <==> forall r | r in s.rows :: !ErrorPending(s, r.payload))
  {
    var joining := After(start, run);
    RunSafe(start, run);
    UpAfterJoin(joining, key);
    JoinSafe(joining, Joined(key));
    var joined := Join(joining, Joined(key));
    RunStaysUp(joined, before);
    var s := After(joined, before);
    if s.events.connections > 0 {
      DrainsExactly(s);
    }
  }
}
