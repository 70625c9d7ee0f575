/** A sender and a receiver at QoS 2, joined by two FIFO channels.

    The sender runs `Publish`, the retransmission of `Sender` and the handling of
    PUBREC and PUBCOMP, the receiver the handling of PUBLISH and PUBREL.  Either
    side may close at any time.  No identifier is used twice on the connection. */
module QoS2Protocol {
  import opened Bytes
  import opened QoS2

  /** What a queued QoS 2 packet waits for: a PUBLISH for PUBREC, a PUBREL for PUBCOMP. */
  datatype Stage = AwaitRec | AwaitComp

  datatype Answer = Rec(id: u16) | Comp(id: u16)

  datatype State = State(
    senderOpen: bool,
    stages: map<u16, Stage>,      // the retransmission queue by identifier
    published: set<u16>,
    acknowledged: set<u16>,       // identifiers whose PUBREC was received
    receiverOpen: bool,
    store: seq<u16>,
    delivered: seq<u16>,          // the calls of OnMessage
    forward: seq<Incoming>,
    backward: seq<Answer>)

  datatype Step =
    | Publishes(id: u16)
    | Retransmits(id: u16)
    | ReceiverTakes              // the next PUBLISH or PUBREL, answered
    | ReceiverCannotAnswer       // the next one, but sending the answer fails
    | SenderTakes                // the next PUBREC or PUBCOMP
    | SenderCannotRelease        // the next PUBREC, but sending the PUBREL fails
    | SenderCloses
    | ReceiverCloses

  predicate Initial(s: State) {
    s == State(true, map[], {}, {}, true, [], [], [], [])
  }

  predicate Enabled(s: State, step: Step) {
    match step
    case Publishes(id) => s.senderOpen && id !in s.published && id != 0
    case Retransmits(id) => s.senderOpen && id in s.stages
    case ReceiverTakes => s.receiverOpen && s.forward != []
    case ReceiverCannotAnswer => s.receiverOpen && s.forward != []
    case SenderTakes => s.senderOpen && s.backward != []
    case SenderCannotRelease => s.senderOpen && s.backward != [] && s.backward[0].Rec?
    case SenderCloses => s.senderOpen
    case ReceiverCloses => s.receiverOpen
  }

  function SenderClosed(s: State): State {
    s.(senderOpen := false, stages := map[])
  }

  function ReceiverClosed(s: State): State {
    s.(receiverOpen := false, store := [])
  }

  /** PUBREC: the queued PUBLISH is replaced by a PUBREL; an unknown identifier
      closes the connection. */
  function OnRec(s: State, id: u16): State {
    var s' := s.(acknowledged := s.acknowledged + {id});
    if id in s.stages then
      s'.(stages := s.stages[id := AwaitComp], forward := s.forward + [PubRel(id)])
    else SenderClosed(s')
  }

  function OnComp(s: State, id: u16): State {
    if id in s.stages then s.(stages := s.stages - {id}) else SenderClosed(s)
  }

  function OnPublish(s: State, id: u16): State {
    s.(backward := s.backward + [Rec(id)],
       store := Remembered(s.store, id),
       delivered := if Fresh(s.store, id) then s.delivered + [id] else s.delivered)
  }

  function OnRel(s: State, id: u16): State {
    s.(backward := s.backward + [Comp(id)], store := Forgotten(s.store, id))
  }

  function Apply(s: State, step: Step): State
    requires Enabled(s, step)
  {
    match step
    case Publishes(id) =>
      s.(published := s.published + {id}, stages := s.stages[id := AwaitRec], forward := s.forward + [Publish(id)])
    case Retransmits(id) =>
      s.(forward := s.forward + [if s.stages[id].AwaitRec? then Publish(id) else PubRel(id)])
    case ReceiverTakes =>
      var s' := s.(forward := s.forward[1..]);
      if s.forward[0].Publish? then OnPublish(s', s.forward[0].id) else OnRel(s', s.forward[0].id)
    case ReceiverCannotAnswer => ReceiverClosed(s.(forward := s.forward[1..]))
    case SenderTakes =>
      var s' := s.(backward := s.backward[1..]);
      if s.backward[0].Rec? then OnRec(s', s.backward[0].id) else OnComp(s', s.backward[0].id)
    case SenderCannotRelease =>
      SenderClosed(s.(backward := s.backward[1..], acknowledged := s.acknowledged + {s.backward[0].id}))
    case SenderCloses => SenderClosed(s)
    case ReceiverCloses => ReceiverClosed(s)
  }

  ghost predicate Run(s: State, steps: seq<Step>, s': State)
    decreases |steps|
  {
    if steps == [] then s == s' else Enabled(s, steps[0]) && Run(Apply(s, steps[0]), steps[1..], s')
  }

  ghost predicate Reachable(s: State) {
    exists s0, steps :: Initial(s0) && Run(s0, steps, s)
  }

  // -------------------------------------------------------------------------
  // The invariant, one identifier at a time
  // -------------------------------------------------------------------------

  /** In the channel no PUBLISH for the identifier follows a PUBREL for it. */
  predicate RelLast(forward: seq<Incoming>, id: u16) {
    forall i, j :: 0 <= i < j < |forward| && forward[i] == PubRel(id) ==> forward[j] != Publish(id)
  }

  /** The sender or the channel still holds a PUBLISH for the identifier. */
  predicate PublishLeft(s: State, id: u16) {
    (id in s.stages && s.stages[id] == AwaitRec) || Publish(id) in s.forward
  }

  predicate Inv(s: State, id: u16) {
    var n := Count(s.delivered, id);
    && n <= 1
    && (n == 1 || PublishLeft(s, id) || id in s.stages ==> id in s.published)
    && (id in s.store ==> n == 1)
    && (s.receiverOpen && n == 1 && id !in s.store ==> !PublishLeft(s, id))
    && RelLast(s.forward, id)
    && (PubRel(id) in s.forward && id in s.stages ==> s.stages[id] == AwaitComp)
    && (PubRel(id) in s.forward || Rec(id) in s.backward || id in s.acknowledged ==> n == 1)
    && (id in s.stages && s.stages[id] == AwaitComp ==> n == 1)
  }

  lemma RelLastTail(forward: seq<Incoming>, id: u16)
    requires RelLast(forward, id) && forward != []
    ensures RelLast(forward[1..], id)
    ensures forward[0] == PubRel(id) ==> Publish(id) !in forward[1..]
    ensures forall m :: m in forward <==> m == forward[0] || m in forward[1..]
  {
    assert forward == [forward[0]] + forward[1..];
    assert forall i :: 0 <= i < |forward| - 1 ==> forward[1..][i] == forward[i + 1];
  }

  lemma SendingKeepsInv(s: State, step: Step, id: u16)
    requires Inv(s, id) && Enabled(s, step) && (step.Publishes? || step.Retransmits?)
    ensures Inv(Apply(s, step), id)
  {
  }

  lemma PublishTakenKeepsInv(s: State, id: u16)
    requires Inv(s, id) && Enabled(s, ReceiverTakes) && s.forward[0].Publish?
    ensures Inv(Apply(s, ReceiverTakes), id)
  {
    RelLastTail(s.forward, id);
  }

  lemma RelTakenKeepsInv(s: State, id: u16)
    requires NoDuplicates(s.store) && Inv(s, id) && Enabled(s, ReceiverTakes) && s.forward[0].PubRel?
    ensures Inv(Apply(s, ReceiverTakes), id)
  {
    RelLastTail(s.forward, id);
    ForgottenMembers(s.store, s.forward[0].id);
  }

  lemma AnswerTakenKeepsInv(s: State, step: Step, id: u16)
    requires Inv(s, id) && Enabled(s, step) && (step.SenderTakes? || step.SenderCannotRelease?)
    ensures Inv(Apply(s, step), id)
  {
    assert s.backward == [s.backward[0]] + s.backward[1..];
  }

  lemma CloseKeepsInv(s: State, step: Step, id: u16)
    requires Inv(s, id) && Enabled(s, step)
    requires step.SenderCloses? || step.ReceiverCloses? || step.ReceiverCannotAnswer?
    ensures Inv(Apply(s, step), id)
  {
    if step.ReceiverCannotAnswer? {
      RelLastTail(s.forward, id);
    }
  }

  ghost predicate Good(s: State) {
    NoDuplicates(s.store) && forall id: u16 :: Inv(s, id)
  }

  lemma StepKeepsGood(s: State, step: Step)
    requires Good(s) && Enabled(s, step)
    ensures Good(Apply(s, step))
  {
    if step.ReceiverTakes? {
      ForgottenMembers(s.store, s.forward[0].id);
    }
    forall id: u16
      ensures Inv(Apply(s, step), id)
    {
      assert Inv(s, id);
      match step {
        case Publishes(_) => SendingKeepsInv(s, step, id);
        case Retransmits(_) => SendingKeepsInv(s, step, id);
        case ReceiverTakes =>
          if s.forward[0].Publish? { PublishTakenKeepsInv(s, id); } else { RelTakenKeepsInv(s, id); }
        case SenderTakes => AnswerTakenKeepsInv(s, step, id);
        case SenderCannotRelease => AnswerTakenKeepsInv(s, step, id);
        case _ => CloseKeepsInv(s, step, id);
      }
    }
  }

  lemma {:induction false} RunKeepsGood(s: State, steps: seq<Step>, s': State)
    requires Good(s) && Run(s, steps, s')
    ensures Good(s')
    decreases |steps|
  {
    if steps != [] {
      StepKeepsGood(s, steps[0]);
      RunKeepsGood(Apply(s, steps[0]), steps[1..], s');
    }
  }

  // -------------------------------------------------------------------------
  // The promise
  // -------------------------------------------------------------------------

  /** Whatever is retransmitted, lost by a close or answered late, no publication
      reaches `OnMessage` twice, and one whose PUBREC is in flight or was received
      has reached it exactly once.  Nothing is delivered that was not published. */
  lemma ExactlyOnce(s: State, id: u16)
    requires Reachable(s)
    ensures Count(s.delivered, id) <= 1
    ensures Rec(id) in s.backward || id in s.acknowledged ==> Count(s.delivered, id) == 1
    ensures id in s.delivered ==> id in s.published
  {
    var s0, steps :| Initial(s0) && Run(s0, steps, s);
    RunKeepsGood(s0, steps, s);
    assert Inv(s, id);
  }

  /** The sender releases an identifier (PUBREL queued or in flight) only after the
      publication was delivered, and the receiver, while open, forgets it only when
      no PUBLISH for it can arrive any more. */
  lemma ReleaseIsSafe(s: State, id: u16)
    requires Reachable(s)
    ensures PubRel(id) in s.forward || (id in s.stages && s.stages[id] == AwaitComp) ==> Count(s.delivered, id) == 1
    ensures s.receiverOpen && id in s.delivered && id !in s.store ==> !PublishLeft(s, id)
  {
    var s0, steps :| Initial(s0) && Run(s0, steps, s);
    RunKeepsGood(s0, steps, s);
    assert Inv(s, id);
  }
}
