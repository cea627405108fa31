/** Calls waiting for replies, over all replicas at once: senders, owners and one reader a replica,
    interleaved in any order. */
module ReplyDelivery {

  import opened Wrappers
  import opened Routing
  import CommandBus

  type Reply = CommandBus.Reply

  /** What travels to the partition's owner; `replyTo` is empty when nobody waits. */
  datatype Command = Command(id: Uuid, key: Uuid, op: string, args: string, replyTo: string)

  /** One execution of a command, with the reply it built. */
  datatype Run = Run(cmd: Command, reply: Reply)

  /** A message of the replies topic; None is a value that does not decode. */
  datatype Message = Message(key: Uuid, partition: nat, reply: Option<Reply>)

  datatype Phase = Writing | Waiting | Returned(reply: Reply) | GaveUp

  /** A call of Send: what it sent, its channel of capacity one, how far it has come, and how long the
      replies topic was when it began. */
  datatype Call = Call(cmd: Command, channel: seq<Reply>, phase: Phase, since: nat)

  /** A reader between looking a channel up and offering the reply to it. */
  datatype Reader = Idle | Offering(reply: Reply, call: Uuid)

  /** Everything shared or local, over all replicas. A replica's reader opens once, at the topic's end,
      and its position moves forward from there. */
  datatype State = State(
    commands: seq<Command>,
    runs: seq<Run>,
    replies: seq<Message>,
    calls: map<Uuid, Call>,
    pending: map<string, set<Uuid>>,
    readers: map<string, Reader>,
    opening: map<string, nat>,
    position: map<string, nat>)

  datatype Step =
    | Begin(replica: string, cmd: Command)
    | Post(cmd: Command)
    | Write(call: Uuid, landed: bool, ok: bool)
    | Execute(cmd: Command, reply: Reply, sent: nat)
    | Garbage(key: Uuid, partition: nat)
    | Open(replica: string)
    | Read(replica: string)
    | Offer(replica: string)
    | Receive(call: Uuid)
    | GiveUp(call: Uuid)
    | Leave(call: Uuid)

  type Positive = n: nat | n > 0 witness 1

  /** The number of partitions of the replies topic, and the hash behind names' keys. */
  datatype Topic = Topic(partitions: Positive, hash: string -> Uuid)

  const Start := State([], [], [], map[], map[], map[], map[], map[])

  function PendingOf(s: State, replica: string): set<Uuid> {
    if replica in s.pending then s.pending[replica] else {}
  }

  function ReaderOf(s: State, replica: string): Reader {
    if replica in s.readers then s.readers[replica] else Idle
  }

  /** Every command and every call so far has another id: ids are random uuids. */
  predicate NewId(s: State, id: Uuid) {
    id !in s.calls && forall i :: 0 <= i < |s.commands| ==> s.commands[i].id != id
  }

  /** Writing a reply: at-least-once, so `sent` copies reach the topic, on the balancer's partition. */
  function Copies(topic: Topic, run: Run, sent: nat): (ms: seq<Message>)
    ensures |ms| == (if run.cmd.replyTo == "" then 0 else sent)
    ensures forall m :: m in ms ==> run.cmd.replyTo != "" && m.key == ReplyKey(topic.hash, run.cmd.replyTo) && m.reply == Some(run.reply) && m.partition == ReplyPartition(topic.hash, run.cmd.replyTo, topic.partitions)
  {
    if run.cmd.replyTo == "" then [] else
      var key := ReplyKey(topic.hash, run.cmd.replyTo);
      WrittenWhereRead(topic.hash, key, run.cmd.replyTo, topic.partitions);
      seq(sent, _ => Message(key, Balance(Some(key), Numbered(topic.partitions)), Some(run.reply)))
  }

  predicate Enabled(topic: Topic, s: State, step: Step) {
    match step
    case Begin(replica, cmd) => NewId(s, cmd.id) && replica != ""
    case Post(cmd) => NewId(s, cmd.id) && cmd.replyTo == ""
    case Write(call, _, ok) => call in s.calls && s.calls[call].phase.Writing?
    case Execute(cmd, reply, sent) => cmd in s.commands && reply.id == cmd.id
    case Garbage(_, partition) => true
    case Open(replica) => replica !in s.opening
    case Read(replica) => replica in s.position && ReaderOf(s, replica).Idle? && s.position[replica] < |s.replies|
    case Offer(replica) => ReaderOf(s, replica).Offering?
    case Receive(call) => call in s.calls && s.calls[call].phase.Waiting? && s.calls[call].channel != []
    case GiveUp(call) => call in s.calls && s.calls[call].phase.Waiting?
    case Leave(call) => call in s.calls && !s.calls[call].phase.Waiting? && !s.calls[call].phase.Writing?
  }

  /** A message of the partition the replica reads, addressed to it, for a call it knows; messages of
      other partitions pass it by. */
  predicate Takes(topic: Topic, s: State, replica: string, m: Message) {
    && m.partition == ReplyPartition(topic.hash, replica, topic.partitions)
    && m.key == ReplyKey(topic.hash, replica) && m.reply.Some? && m.reply.value.id in PendingOf(s, replica)
  }

  function Next(topic: Topic, s: State, step: Step): State
    requires Enabled(topic, s, step)
  {
    match step
    case Begin(replica, cmd) =>
      s.(calls := s.calls[cmd.id := Call(cmd.(replyTo := replica), [], Writing, |s.replies|)],
         pending := s.pending[replica := PendingOf(s, replica) + {cmd.id}])
    case Post(cmd) => s.(commands := s.commands + [cmd])
    case Write(call, landed, ok) =>
      var c := s.calls[call];
      // A write reported as failed may have landed all the same.
      s.(commands := if ok || landed then s.commands + [c.cmd] else s.commands,
         calls := s.calls[call := c.(phase := if ok then Waiting else GaveUp)])
    case Execute(cmd, reply, sent) =>
      s.(runs := s.runs + [Run(cmd, reply)], replies := s.replies + Copies(topic, Run(cmd, reply), sent))
    case Garbage(key, partition) => s.(replies := s.replies + [Message(key, partition, None)])
    case Open(replica) => s.(opening := s.opening[replica := |s.replies|], position := s.position[replica := |s.replies|])
    case Read(replica) =>
      var m := s.replies[s.position[replica]];
      var on := s.(position := s.position[replica := s.position[replica] + 1]);
      if !Takes(topic, s, replica, m) then on
      else on.(readers := s.readers[replica := Offering(m.reply.value, m.reply.value.id)])
    case Offer(replica) =>
      var offer := ReaderOf(s, replica);
      var idle := s.(readers := s.readers[replica := Idle]);
      if offer.call !in s.calls || s.calls[offer.call].channel != [] then idle  // full: a duplicate, dropped
      else idle.(calls := s.calls[offer.call := s.calls[offer.call].(channel := [offer.reply])])
    case Receive(call) =>
      var c := s.calls[call];
      s.(calls := s.calls[call := c.(phase := Returned(c.channel[0]), channel := c.channel[1..])])
    case GiveUp(call) => s.(calls := s.calls[call := s.calls[call].(phase := GaveUp)])
    case Leave(call) =>
      var replica := s.calls[call].cmd.replyTo;
      s.(pending := s.pending[replica := PendingOf(s, replica) - {call}])
  }

  ghost predicate Runs(topic: Topic, s: State, steps: seq<Step>, t: State)
    decreases |steps|
  {
    if steps == [] then s == t else Enabled(topic, s, steps[0]) && Runs(topic, Next(topic, s, steps[0]), steps[1..], t)
  }

  // ----- the invariant -----

  /** The reply was built by an execution of the command. */
  predicate AnswerTo(s: State, cmd: Command, reply: Reply) {
    reply.id == cmd.id && Run(cmd, reply) in s.runs
  }

  ghost predicate CallsSound(s: State) {
    forall id :: id in s.calls ==>
      var c := s.calls[id];
      && c.cmd.id == id && c.cmd.replyTo != "" && |c.channel| <= 1
      && (forall r :: r in c.channel ==> AnswerTo(s, c.cmd, r))
      && (c.phase.Returned? ==> AnswerTo(s, c.cmd, c.phase.reply))
  }

  ghost predicate CommandsSound(s: State) {
    forall cmd :: cmd in s.commands && cmd.id in s.calls ==> s.calls[cmd.id].cmd == cmd
  }

  ghost predicate RunsSound(runs: seq<Run>, commands: seq<Command>) {
    forall run :: run in runs ==> run.cmd in commands && run.reply.id == run.cmd.id
  }

  /** The message is the reply of a run, and lies where the one who waits for it reads. */
  ghost predicate Carries(topic: Topic, m: Message, run: Run) {
    && m.reply == Some(run.reply) && run.cmd.replyTo != ""
    && m.key == ReplyKey(topic.hash, run.cmd.replyTo) && m.partition == ReplyPartition(topic.hash, run.cmd.replyTo, topic.partitions)
  }

  /** Every decodable reply on the topic comes from a run, and lies where its addressee reads. */
  ghost predicate RepliesSound(topic: Topic, replies: seq<Message>, runs: seq<Run>) {
    forall m :: m in replies && m.reply.Some? ==> exists run :: run in runs && Carries(topic, m, run)
  }

  ghost predicate PendingSound(s: State) {
    && (forall replica, id :: replica in s.pending && id in s.pending[replica] ==> id in s.calls && s.calls[id].cmd.replyTo == replica)
    && (forall replica :: replica in s.readers && s.readers[replica].Offering? ==>
          var r := s.readers[replica]; r.call in s.calls && AnswerTo(s, s.calls[r.call].cmd, r.reply))
  }

  ghost predicate Sound(topic: Topic, s: State)
  {
    CallsSound(s) && CommandsSound(s) && RunsSound(s.runs, s.commands) && RepliesSound(topic, s.replies, s.runs) && PendingSound(s)
  }

  lemma ExecuteKeepsSound(topic: Topic, s: State, step: Step)
    requires Sound(topic, s) && step.Execute? && Enabled(topic, s, step)
    ensures Sound(topic, Next(topic, s, step))
  {
    var t := Next(topic, s, step);
    var run := Run(step.cmd, step.reply);
    assert run in t.runs;
    assert forall r :: r in s.runs ==> r in t.runs;
    forall m | m in t.replies && m.reply.Some? ensures exists run :: run in t.runs && Carries(topic, m, run) {
      if m in s.replies {
        var earlier :| earlier in s.runs && Carries(topic, m, earlier);
        assert earlier in t.runs;
      } else {
        assert m in Copies(topic, run, step.sent);
        assert Carries(topic, m, run);
      }
    }
  }

  lemma ReadKeepsSound(topic: Topic, s: State, step: Step)
    requires Sound(topic, s) && step.Read? && Enabled(topic, s, step)
    ensures Sound(topic, Next(topic, s, step))
  {
    TakenIsAnswer(topic, s, step.replica);
    hide RepliesSound, RunsSound, Takes, CommandsSound, ReplyKey, ReplyPartition;
  }

  /** What a reader takes up is an answer to the call it looks up. */
  lemma TakenIsAnswer(topic: Topic, s: State, replica: string)
    requires Sound(topic, s) && Enabled(topic, s, Read(replica))
    ensures var m := s.replies[s.position[replica]];
            Takes(topic, s, replica, m) ==> var id := m.reply.value.id; id in s.calls && AnswerTo(s, s.calls[id].cmd, m.reply.value)
  {
    var m := s.replies[s.position[replica]];
    if Takes(topic, s, replica, m) {
      assert m in s.replies;
      var run :| run in s.runs && Carries(topic, m, run);
      assert run.cmd in s.commands;
      assert run == Run(run.cmd, run.reply);
      assert s.calls[run.cmd.id].cmd == run.cmd;
    }
  }

  lemma {:induction false} StepKeepsSound(topic: Topic, s: State, step: Step)
    requires Sound(topic, s) && Enabled(topic, s, step)
    ensures Sound(topic, Next(topic, s, step))
  {
    hide Sound, Next;
    match step
    case Execute(_, _, _) => ExecuteKeepsSound(topic, s, step);
    case Read(_) => ReadKeepsSound(topic, s, step);
    case Open(_) => OpenKeepsSound(topic, s, step);
    case Begin(_, _) => BeginKeepsSound(topic, s, step);
    case Write(_, _, _) => WriteKeepsSound(topic, s, step);
    case Post(_) => PostKeepsSound(topic, s, step);
    case Offer(_) => OfferKeepsSound(topic, s, step);
    case Receive(call) => ReceiveKeepsSound(topic, s, call);
    case Garbage(_, _) => GarbageKeepsSound(topic, s, step);
    case GiveUp(_) => GiveUpKeepsSound(topic, s, step);
    case Leave(_) => LeaveKeepsSound(topic, s, step);
  }

  lemma OfferKeepsSound(topic: Topic, s: State, step: Step)
    requires Sound(topic, s) && step.Offer? && Enabled(topic, s, step)
    ensures Sound(topic, Next(topic, s, step))
  {
    hide RepliesSound, RunsSound, CallsSound, AnswerTo, PendingOf, Next, Enabled;
    OfferKeepsCalls(topic, s, step);
    OfferNext(topic, s, step.replica);
    assert step == Offer(step.replica);
    var t := Next(topic, s, step);
    assert t.runs == s.runs;
    assert forall cmd, reply :: AnswerTo(s, cmd, reply) ==> AnswerTo(t, cmd, reply) by {
      forall cmd, reply | AnswerTo(s, cmd, reply) ensures AnswerTo(t, cmd, reply) {
        SameRunsSameAnswers(s, t, cmd, reply);
      }
    }
  }

  /** What an offer leaves: the reader idle and the reply in the channel if that was empty. */
  lemma OfferNext(topic: Topic, s: State, replica: string)
    requires Enabled(topic, s, Offer(replica))
    ensures ReaderOf(s, replica).Offering?
    ensures var offer := ReaderOf(s, replica);
            var full := offer.call !in s.calls || s.calls[offer.call].channel != [];
            Next(topic, s, Offer(replica)) ==
              s.(readers := s.readers[replica := Idle],
                 calls := if full then s.calls else s.calls[offer.call := s.calls[offer.call].(channel := [offer.reply])])
  {
    hide NewId, Takes, PendingOf, Copies;
  }

  lemma OfferKeepsCalls(topic: Topic, s: State, step: Step)
    requires CallsSound(s) && PendingSound(s) && step.Offer? && Enabled(topic, s, step)
    ensures CallsSound(Next(topic, s, step))
  {
    hide PendingOf, Next, Enabled;
    OfferNext(topic, s, step.replica);
    assert step == Offer(step.replica);
  }

  lemma SameRunsSameAnswers(s: State, t: State, cmd: Command, reply: Reply)
    requires t.runs == s.runs
    ensures AnswerTo(s, cmd, reply) <==> AnswerTo(t, cmd, reply)
  {
  }

  lemma ReceiveKeepsSound(topic: Topic, s: State, call: Uuid)
    requires Sound(topic, s) && Enabled(topic, s, Receive(call))
    ensures Sound(topic, Next(topic, s, Receive(call)))
  {
    hide RepliesSound, RunsSound;
    var channel := s.calls[call].channel;
    assert channel[0] in channel && channel == [channel[0]] + channel[1..];
  }

  lemma GarbageKeepsSound(topic: Topic, s: State, step: Step)
    requires Sound(topic, s) && step.Garbage? && Enabled(topic, s, step)
    ensures Sound(topic, Next(topic, s, step))
  {
    hide Carries, ReplyKey, ReplyPartition, Copies;
  }

  lemma GiveUpKeepsSound(topic: Topic, s: State, step: Step)
    requires Sound(topic, s) && step.GiveUp? && Enabled(topic, s, step)
    ensures Sound(topic, Next(topic, s, step))
  {
    hide RepliesSound, RunsSound;
  }

  lemma LeaveKeepsSound(topic: Topic, s: State, step: Step)
    requires Sound(topic, s) && step.Leave? && Enabled(topic, s, step)
    ensures Sound(topic, Next(topic, s, step))
  {
    hide RepliesSound, RunsSound;
  }

  lemma OpenKeepsSound(topic: Topic, s: State, step: Step)
    requires Sound(topic, s) && step.Open? && Enabled(topic, s, step)
    ensures Sound(topic, Next(topic, s, step))
  {
    hide RepliesSound, RunsSound;
  }

  lemma BeginKeepsSound(topic: Topic, s: State, step: Step)
    requires Sound(topic, s) && step.Begin? && Enabled(topic, s, step)
    ensures Sound(topic, Next(topic, s, step))
  {
    hide RepliesSound, RunsSound;
  }

  lemma PostKeepsSound(topic: Topic, s: State, step: Step)
    requires Sound(topic, s) && step.Post? && Enabled(topic, s, step)
    ensures Sound(topic, Next(topic, s, step))
  {
    hide Carries, ReplyKey, ReplyPartition, Copies;
  }

  lemma WriteKeepsSound(topic: Topic, s: State, step: Step)
    requires Sound(topic, s) && step.Write? && Enabled(topic, s, step)
    ensures Sound(topic, Next(topic, s, step))
  {
    hide RepliesSound;
  }

  // ----- the results -----

  lemma {:induction false} RunKeepsSound(topic: Topic, s: State, steps: seq<Step>, t: State)
    requires Sound(topic, s) && Runs(topic, s, steps, t)
    ensures Sound(topic, t)
    decreases |steps|
  {
    if steps != [] {
      StepKeepsSound(topic, s, steps[0]);
      RunKeepsSound(topic, Next(topic, s, steps[0]), steps[1..], t);
    }
  }

  /** In every run, whatever a call returns carries its own command's id and was built by an
      execution of exactly the command it sent; and so is whatever waits in its channel. */
  lemma RepliesReachTheirCalls(topic: Topic, steps: seq<Step>, t: State, id: Uuid)
    requires Runs(topic, Start, steps, t) && id in t.calls
    ensures var c := t.calls[id];
            && c.cmd.id == id && |c.channel| <= 1
            && (forall r :: r in c.channel ==> r.id == id && Run(c.cmd, r) in t.runs)
            && (c.phase.Returned? ==> c.phase.reply.id == id && Run(c.cmd, c.phase.reply) in t.runs && c.cmd in t.commands)
  {
    RunKeepsSound(topic, Start, steps, t);
  }

  /** A reader with a reply in hand can always go on, and touches no call but the reply's own; a
      second reply to one call is dropped. */
  lemma ReaderNeverBlocks(topic: Topic, steps: seq<Step>, t: State, replica: string)
    requires Runs(topic, Start, steps, t) && ReaderOf(t, replica).Offering?
    ensures Enabled(topic, t, Offer(replica))
    ensures var reply, after := ReaderOf(t, replica).reply, Next(topic, t, Offer(replica));
            && ReaderOf(after, replica).Idle?
            && reply.id in t.calls && t.calls[reply.id].cmd.replyTo != ""
            && (forall id :: id in t.calls && id != reply.id ==> id in after.calls && after.calls[id] == t.calls[id])
            && after.calls[reply.id].channel == (if t.calls[reply.id].channel == [] then [reply] else t.calls[reply.id].channel)
            && after.calls[reply.id].phase == t.calls[reply.id].phase
  {
    RunKeepsSound(topic, Start, steps, t);
    hide RepliesSound, RunsSound, CommandsSound, Next;
    var r := ReaderOf(t, replica);
    OfferNext(topic, t, replica);
    assert AnswerTo(t, t.calls[r.call].cmd, r.reply);
  }

  // ----- no reply is passed over -----

  /** A call without its outcome yet. */
  predicate Outstanding(s: State, id: Uuid) {
    id in s.calls && (s.calls[id].phase.Writing? || s.calls[id].phase.Waiting?)
  }

  /** A call stays in its replica's table until it has its outcome. */
  ghost predicate Listed(s: State) {
    forall id :: Outstanding(s, id) ==> id in PendingOf(s, s.calls[id].cmd.replyTo)
  }

  /** The topic's message there is a reply to the call. */
  predicate AnswersAt(s: State, at: nat, id: Uuid) {
    at < |s.replies| && s.replies[at].reply.Some? && s.replies[at].reply.value.id == id
  }

  /** The replica's reader has been there. */
  predicate ReadBy(s: State, replica: string, at: nat) {
    replica in s.opening && replica in s.position && s.opening[replica] <= at < s.position[replica]
  }

  /** Readers stand between where they opened and the topic's end, and every reply to a call lies after
      the call began. */
  ghost predicate Placed(s: State) {
    && s.opening.Keys == s.position.Keys
    && (forall r :: r in s.position ==> s.opening[r] <= s.position[r] <= |s.replies|)
    && (forall id :: id in s.calls ==> s.calls[id].since <= |s.replies|)
    && (forall at: nat, id :: AnswersAt(s, at, id) && id in s.calls ==> s.calls[id].since <= at)
  }

  /** A reply to the call waits in its channel or is about to be offered to it. */
  predicate InHand(s: State, id: Uuid)
    requires id in s.calls
  {
    var reader := ReaderOf(s, s.calls[id].cmd.replyTo);
    s.calls[id].channel != [] || (reader.Offering? && reader.call == id)
  }

  /** No reader passes over the reply to a call without its outcome. */
  ghost predicate NonePassed(s: State) {
    forall at: nat, id :: AnswersAt(s, at, id) && Outstanding(s, id) && ReadBy(s, s.calls[id].cmd.replyTo, at) ==> InHand(s, id)
  }

  lemma StepKeepsListed(topic: Topic, s: State, step: Step)
    requires Listed(s) && Enabled(topic, s, step)
    ensures Listed(Next(topic, s, step))
  {
  }

  /** What every step leaves: the topic grows at its end, a call keeps its command and its beginning,
      and a new call has an id nothing bears. */
  lemma NextKeeps(topic: Topic, s: State, step: Step)
    requires Enabled(topic, s, step)
    ensures var t := Next(topic, s, step);
            && |s.replies| <= |t.replies| && t.replies[..|s.replies|] == s.replies
            && forall id :: id in t.calls ==>
                 if id in s.calls then t.calls[id].cmd == s.calls[id].cmd && t.calls[id].since == s.calls[id].since
                 else NewId(s, id) && t.calls[id].since == |s.replies|
  {
    hide Copies, ReaderOf, PendingOf, Takes;
  }

  lemma NewIdsAreUnanswered(topic: Topic, s: State, at: nat, id: Uuid)
    requires Sound(topic, s) && AnswersAt(s, at, id)
    ensures !NewId(s, id)
    ensures id in s.calls ==> var replica := s.calls[id].cmd.replyTo; var m := s.replies[at];
      && m.partition == ReplyPartition(topic.hash, replica, topic.partitions) && m.key == ReplyKey(topic.hash, replica)
  {
    assert s.replies[at] in s.replies;
    var run :| run in s.runs && Carries(topic, s.replies[at], run);
    assert run.cmd in s.commands;
  }

  lemma StepKeepsPlaced(topic: Topic, s: State, step: Step)
    requires Sound(topic, s) && Placed(s) && Enabled(topic, s, step)
    ensures Placed(Next(topic, s, step))
  {
    hide Sound, Next, NewId;
    var t := Next(topic, s, step);
    NextKeeps(topic, s, step);
    ReadersKeepPlace(topic, s, step);
    forall at: nat, id | AnswersAt(t, at, id) && id in t.calls ensures t.calls[id].since <= at {
      if at < |s.replies| {
        assert t.replies[..|s.replies|][at] == s.replies[at];
        assert AnswersAt(s, at, id);
        NewIdsAreUnanswered(topic, s, at, id);
      }
    }
  }

  lemma ReadersKeepPlace(topic: Topic, s: State, step: Step)
    requires Placed(s) && Enabled(topic, s, step)
    ensures var t := Next(topic, s, step);
            && t.opening.Keys == t.position.Keys
            && forall r :: r in t.position ==> t.opening[r] <= t.position[r] <= |t.replies|
  {
    hide Copies, ReaderOf, PendingOf, Takes, NewId, AnswersAt;
  }

  /** A reader goes past a reply to a call without its outcome only by taking it up. */
  lemma StepKeepsNonePassed(topic: Topic, s: State, step: Step)
    requires Sound(topic, s) && Listed(s) && Placed(s) && NonePassed(s) && Enabled(topic, s, step)
    ensures NonePassed(Next(topic, s, step))
  {
    hide Sound, Next, NewId, Listed, Enabled, Placed;
    var t := Next(topic, s, step);
    NextKeeps(topic, s, step);
    forall at: nat, id | AnswersAt(t, at, id) && Outstanding(t, id) && ReadBy(t, t.calls[id].cmd.replyTo, at) ensures InHand(t, id) {
      ReadWithinTopic(topic, s, step, t.calls[id].cmd.replyTo, at);
      assert t.replies[..|s.replies|][at] == s.replies[at];
      NewIdsAreUnanswered(topic, s, at, id);
      NotPassedBy(topic, s, step, at, id);
    }
  }

  /** Whatever a step has read lay on the topic before it, and only a read goes further. */
  lemma ReadWithinTopic(topic: Topic, s: State, step: Step, replica: string, at: nat)
    requires Placed(s) && Enabled(topic, s, step) && ReadBy(Next(topic, s, step), replica, at)
    ensures at < |s.replies|
  {
    hide Copies, ReaderOf, PendingOf, Takes, NewId;
  }

  lemma NotPassedBy(topic: Topic, s: State, step: Step, at: nat, id: Uuid)
    requires Sound(topic, s) && Listed(s) && NonePassed(s) && Enabled(topic, s, step)
    requires AnswersAt(s, at, id) && id in s.calls && id in Next(topic, s, step).calls
    requires var t := Next(topic, s, step); Outstanding(t, id) && t.calls[id].cmd == s.calls[id].cmd && ReadBy(t, t.calls[id].cmd.replyTo, at)
    ensures InHand(Next(topic, s, step), id)
  {
    hide Sound, NewId, Copies, ReplyKey, ReplyPartition;
    if step.Offer? {
      OfferPassesNothing(topic, s, step.replica, at, id);
    } else {
      NewIdsAreUnanswered(topic, s, at, id);
    }
  }

  lemma OfferPassesNothing(topic: Topic, s: State, replica: string, at: nat, id: Uuid)
    requires NonePassed(s) && Enabled(topic, s, Offer(replica)) && AnswersAt(s, at, id) && id in s.calls
    requires var t := Next(topic, s, Offer(replica)); id in t.calls && Outstanding(t, id) && ReadBy(t, t.calls[id].cmd.replyTo, at)
    ensures InHand(Next(topic, s, Offer(replica)), id)
  {
    hide Next, Enabled;
    OfferNext(topic, s, replica);
    assert ReadBy(s, s.calls[id].cmd.replyTo, at) && InHand(s, id);
  }

  // ----- nothing but what was read -----

  /** The replica's reader has read the reply. */
  ghost predicate Came(s: State, replica: string, reply: Reply) {
    exists at: nat :: ReadBy(s, replica, at) && at < |s.replies| && s.replies[at].reply == Some(reply)
  }

  /** What a call holds or returned, its replica's reader has read. */
  ghost predicate HeldRead(s: State) {
    forall id, r :: id in s.calls && Holds(s.calls[id], r) ==> Came(s, s.calls[id].cmd.replyTo, r)
  }

  predicate Holds(c: Call, r: Reply) {
    c.channel == [r] || c.phase == Returned(r)
  }

  /** What a reader is offering to one of its replica's calls, it has read. */
  ghost predicate OfferedRead(s: State) {
    forall replica :: ReaderOf(s, replica).Offering? ==>
      var reader := ReaderOf(s, replica);
      reader.call in s.calls && s.calls[reader.call].cmd.replyTo == replica && Came(s, replica, reader.reply)
  }

  lemma CameStays(topic: Topic, s: State, step: Step, replica: string, reply: Reply)
    requires Placed(s) && Enabled(topic, s, step) && Came(s, replica, reply)
    ensures Came(Next(topic, s, step), replica, reply)
  {
    hide Copies, ReaderOf, PendingOf, Takes, NewId;
    var at: nat :| ReadBy(s, replica, at) && at < |s.replies| && s.replies[at].reply == Some(reply);
    var t := Next(topic, s, step);
    assert t.replies[at] == s.replies[at] && ReadBy(t, replica, at);
  }

  lemma StepKeepsHeldRead(topic: Topic, s: State, step: Step)
    requires CallsSound(s) && Placed(s) && HeldRead(s) && OfferedRead(s) && Enabled(topic, s, step)
    ensures HeldRead(Next(topic, s, step))
  {
    hide Came, Copies, NewId, PendingOf, Takes;
    var t := Next(topic, s, step);
    forall id, r | id in t.calls && Holds(t.calls[id], r) ensures Came(t, t.calls[id].cmd.replyTo, r) {
      assert Came(s, t.calls[id].cmd.replyTo, r) by {
        if step.Receive? && step.call == id {
          assert s.calls[id].channel == [r];
        }
        assert id in s.calls && Holds(s.calls[id], r) ==> Came(s, s.calls[id].cmd.replyTo, r);
      }
      CameStays(topic, s, step, t.calls[id].cmd.replyTo, r);
    }
  }

  lemma StepKeepsOfferedRead(topic: Topic, s: State, step: Step)
    requires PendingSound(s) && Placed(s) && OfferedRead(s) && Enabled(topic, s, step)
    ensures OfferedRead(Next(topic, s, step))
  {
    hide Came, Copies, AnswerTo;
    var t := Next(topic, s, step);
    forall replica | ReaderOf(t, replica).Offering?
      ensures var reader := ReaderOf(t, replica);
              reader.call in t.calls && t.calls[reader.call].cmd.replyTo == replica && Came(t, replica, reader.reply)
    {
      if ReaderOf(t, replica) == ReaderOf(s, replica) {
        CameStays(topic, s, step, replica, ReaderOf(s, replica).reply);
      } else {
        TakenCame(topic, s, replica);
      }
    }
  }

  lemma TakenCame(topic: Topic, s: State, replica: string)
    requires Placed(s) && Enabled(topic, s, Read(replica)) && Takes(topic, s, replica, s.replies[s.position[replica]])
    ensures Came(Next(topic, s, Read(replica)), replica, s.replies[s.position[replica]].reply.value)
  {
    assert ReadBy(Next(topic, s, Read(replica)), replica, s.position[replica]);
  }

  // ----- when a reply is in reach -----

  ghost predicate Kept(topic: Topic, s: State) {
    Sound(topic, s) && Listed(s) && Placed(s) && NonePassed(s) && HeldRead(s) && OfferedRead(s)
  }

  lemma StepKeeps(topic: Topic, s: State, step: Step)
    requires Kept(topic, s) && Enabled(topic, s, step)
    ensures Kept(topic, Next(topic, s, step))
  {
    hide CallsSound, CommandsSound, RunsSound, RepliesSound, PendingSound, Listed, Placed, NonePassed, HeldRead, OfferedRead, Next, Enabled;
    StepKeepsSound(topic, s, step);
    StepKeepsListed(topic, s, step);
    StepKeepsPlaced(topic, s, step);
    StepKeepsNonePassed(topic, s, step);
    StepKeepsHeldRead(topic, s, step);
    StepKeepsOfferedRead(topic, s, step);
  }

  lemma {:induction false} RunKeeps(topic: Topic, s: State, steps: seq<Step>, t: State)
    requires Kept(topic, s) && Runs(topic, s, steps, t)
    ensures Kept(topic, t)
    decreases |steps|
  {
    hide Kept, Next, Enabled;
    if steps != [] {
      StepKeeps(topic, s, steps[0]);
      RunKeeps(topic, Next(topic, s, steps[0]), steps[1..], t);
    }
  }

  /** Steps of one replica's reader alone. */
  predicate OnlyReader(steps: seq<Step>, replica: string) {
    forall i :: 0 <= i < |steps| ==> steps[i] == Read(replica) || steps[i] == Offer(replica)
  }

  /** The reader, going on by itself, comes to put a reply into the call's channel. */
  ghost predicate InReach(topic: Topic, s: State, replica: string, id: Uuid) {
    exists steps, t :: OnlyReader(steps, replica) && Runs(topic, s, steps, t) && id in t.calls && t.calls[id].channel != []
  }

  /** A reply to the call on the topic, not before the place where the replica's reader opened. */
  ghost predicate AheadOfOpening(s: State, replica: string, id: Uuid) {
    replica in s.opening && exists at: nat :: s.opening[replica] <= at && AnswersAt(s, at, id)
  }

  lemma StepBack(topic: Topic, s: State, step: Step, replica: string, id: Uuid)
    requires (step == Read(replica) || step == Offer(replica)) && Enabled(topic, s, step) && InReach(topic, Next(topic, s, step), replica, id)
    ensures InReach(topic, s, replica, id)
  {
    hide Enabled, Next;
    var steps, t :| OnlyReader(steps, replica) && Runs(topic, Next(topic, s, step), steps, t) && id in t.calls && t.calls[id].channel != [];
    var all := [step] + steps;
    assert all[1..] == steps && OnlyReader(all, replica);
    assert Runs(topic, s, all, t);
  }

  lemma {:induction false} ReaderDelivers(topic: Topic, s: State, at: nat, id: Uuid)
    requires Kept(topic, s) && id in s.calls && s.calls[id].phase.Waiting? && AnswersAt(s, at, id)
    requires s.calls[id].cmd.replyTo in s.opening && s.opening[s.calls[id].cmd.replyTo] <= at
    ensures InReach(topic, s, s.calls[id].cmd.replyTo, id)
    decreases |s.replies| - (if s.calls[id].cmd.replyTo in s.position then s.position[s.calls[id].cmd.replyTo] else 0), ReaderOf(s, s.calls[id].cmd.replyTo).Offering?
  {
    hide Sound, Listed, HeldRead, OfferedRead, InReach;
    var replica := s.calls[id].cmd.replyTo;
    if s.calls[id].channel != [] {
      AlreadyThere(topic, s, replica, id);
    } else {
      var step := if ReaderOf(s, replica).Offering? then Offer(replica) else Read(replica);
      assert ReadBy(s, replica, at) ==> InHand(s, id);
      assert Enabled(topic, s, step);
      StepKeeps(topic, s, step);
      ReaderDelivers(topic, Next(topic, s, step), at, id);
      StepBack(topic, s, step, replica, id);
    }
  }

  lemma AlreadyThere(topic: Topic, s: State, replica: string, id: Uuid)
    requires id in s.calls && s.calls[id].channel != []
    ensures InReach(topic, s, replica, id)
  {
    assert OnlyReader([], replica) && Runs(topic, s, [], s);
  }

  /** Reading and offering add nothing to the topic and open no reader. */
  lemma {:induction false} ReaderAddsNothing(topic: Topic, s: State, steps: seq<Step>, t: State, replica: string)
    requires OnlyReader(steps, replica) && Runs(topic, s, steps, t)
    ensures t.replies == s.replies && t.opening == s.opening && t.calls.Keys == s.calls.Keys
    ensures forall id :: id in s.calls ==> t.calls[id].cmd == s.calls[id].cmd
    decreases |steps|
  {
    hide Next, Enabled;
    if steps != [] {
      assert steps[0] == Read(replica) || steps[0] == Offer(replica);
      assert OnlyReader(steps[1..], replica);
      ReaderStepAddsNothing(topic, s, steps[0], replica);
      ReaderAddsNothing(topic, Next(topic, s, steps[0]), steps[1..], t, replica);
    }
  }

  lemma ReaderStepAddsNothing(topic: Topic, s: State, step: Step, replica: string)
    requires (step == Read(replica) || step == Offer(replica)) && Enabled(topic, s, step)
    ensures var t := Next(topic, s, step);
            && t.replies == s.replies && t.opening == s.opening && t.calls.Keys == s.calls.Keys
            && forall id :: id in s.calls ==> t.calls[id].cmd == s.calls[id].cmd
  {
    hide Takes, PendingOf;
  }

  /** In every run: a waiting call's reply lies after the call began; the call's reader, by itself,
      brings it a reply exactly when one lies after the place where that reader opened; and so it always
      does when the reader opened before the call began. */
  lemma ReplyInReachExactly(topic: Topic, steps: seq<Step>, t: State, id: Uuid)
    requires Runs(topic, Start, steps, t) && id in t.calls && t.calls[id].phase.Waiting?
    ensures var c := t.calls[id]; var replica := c.cmd.replyTo;
            && (InReach(topic, t, replica, id) <==> AheadOfOpening(t, replica, id))
            && (forall at: nat :: AnswersAt(t, at, id) ==> c.since <= at)
            && (replica in t.opening && t.opening[replica] <= c.since && (exists at: nat :: AnswersAt(t, at, id)) ==> InReach(topic, t, replica, id))
  {
    assert Kept(topic, Start);
    RunKeeps(topic, Start, steps, t);
    var replica := t.calls[id].cmd.replyTo;
    if AheadOfOpening(t, replica, id) {
      var at: nat :| t.opening[replica] <= at && AnswersAt(t, at, id);
      ReaderDelivers(topic, t, at, id);
    }
    if InReach(topic, t, replica, id) {
      InReachMeansAhead(topic, t, replica, id);
    }
  }

  lemma InReachMeansAhead(topic: Topic, s: State, replica: string, id: Uuid)
    requires Kept(topic, s) && id in s.calls && replica == s.calls[id].cmd.replyTo && InReach(topic, s, replica, id)
    ensures AheadOfOpening(s, replica, id)
  {
    var more, u :| OnlyReader(more, replica) && Runs(topic, s, more, u) && id in u.calls && u.calls[id].channel != [];
    RunKeeps(topic, s, more, u);
    ReaderAddsNothing(topic, s, more, u, replica);
    var at := HeldLiesAhead(topic, u, id);
    assert AnswersAt(s, at, id);
  }

  lemma HeldLiesAhead(topic: Topic, u: State, id: Uuid) returns (at: nat)
    requires Kept(topic, u) && id in u.calls && u.calls[id].channel != []
    ensures AnswersAt(u, at, id) && u.calls[id].cmd.replyTo in u.opening && u.opening[u.calls[id].cmd.replyTo] <= at
  {
    hide Listed, Placed, NonePassed, OfferedRead, RepliesSound, RunsSound, CommandsSound, PendingSound;
    var c := u.calls[id];
    var reply := c.channel[0];
    assert reply in c.channel && c.channel == [reply];
    assert AnswerTo(u, c.cmd, reply);
    assert Holds(c, reply);
    at :| ReadBy(u, c.cmd.replyTo, at) && at < |u.replies| && u.replies[at].reply == Some(reply);
  }

  /** A reply the call's reader has gone past is in hand while the call waits, and one it stands before
      is taken up with its next step. */
  lemma WaitingCallIsFound(topic: Topic, steps: seq<Step>, t: State, at: nat, id: Uuid)
    requires Runs(topic, Start, steps, t) && AnswersAt(t, at, id) && id in t.calls && t.calls[id].phase.Waiting?
    requires var replica := t.calls[id].cmd.replyTo; replica in t.opening && replica in t.position && t.opening[replica] <= at
    ensures var replica := t.calls[id].cmd.replyTo;
            && (t.position[replica] > at ==> InHand(t, id))
            && (t.position[replica] == at && ReaderOf(t, replica).Idle? ==>
                  && Enabled(topic, t, Read(replica))
                  && ReaderOf(Next(topic, t, Read(replica)), replica) == Offering(t.replies[at].reply.value, id))
  {
    assert Kept(topic, Start);
    RunKeeps(topic, Start, steps, t);
    NewIdsAreUnanswered(topic, t, at, id);
    hide Sound, Placed, HeldRead, OfferedRead;
    assert ReadBy(t, t.calls[id].cmd.replyTo, at) ==> InHand(t, id);
  }

  /** Nothing makes a call wait for its replica's reader to open: one begun and answered before that is
      out of the reader's reach for good. */
  lemma EarlyCallMissesItsReply(topic: Topic, replica: string, cmd: Command, reply: Reply)
    requires replica != "" && cmd.replyTo == replica && reply.id == cmd.id
    ensures exists steps, t ::
              && Runs(topic, Start, steps, t) && cmd.id in t.calls && t.calls[cmd.id].phase.Waiting?
              && replica in t.opening && AnswersAt(t, 0, cmd.id) && !InReach(topic, t, replica, cmd.id)
  {
    hide InReach, ReplyKey, ReplyPartition;
    var begin, write, run, open := Begin(replica, cmd), Write(cmd.id, true, true), Execute(cmd, reply, 1), Step.Open(replica);
    var s1 := Next(topic, Start, begin);
    var s2 := Next(topic, s1, write);
    assert s2.commands == [cmd] && cmd in s2.commands;
    var s3 := Next(topic, s2, run);
    var t := Next(topic, s3, open);
    var copies := Copies(topic, Run(cmd, reply), 1);
    assert s3.replies == copies && copies[0] in copies;
    Chain(topic, begin, write, run, open, s1, s2, s3, t);
    ReplyInReachExactly(topic, [begin, write, run, open], t, cmd.id);
    assert t.opening[replica] == 1 == |t.replies|;
    assert Runs(topic, Start, [begin, write, run, open], t);
  }

  lemma Chain(topic: Topic, a: Step, b: Step, c: Step, d: Step, s1: State, s2: State, s3: State, t: State)
    requires Enabled(topic, Start, a) && s1 == Next(topic, Start, a) && Enabled(topic, s1, b) && s2 == Next(topic, s1, b)
    requires Enabled(topic, s2, c) && s3 == Next(topic, s2, c) && Enabled(topic, s3, d) && t == Next(topic, s3, d)
    ensures Runs(topic, Start, [a, b, c, d], t)
  {
    hide Enabled, Next;
    assert [a, b, c, d][1..] == [b, c, d] && [b, c, d][1..] == [c, d] && [c, d][1..] == [d] && [d][1..] == [];
    assert Runs(topic, t, [], t);
    assert Runs(topic, s3, [d], t);
    assert Runs(topic, s2, [c, d], t);
    assert Runs(topic, s1, [b, c, d], t);
  }
}
