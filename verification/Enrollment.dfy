/**
 * One-time enrollment: any number of concurrent enrollment calls, interleaved one storage operation at a time.
 */
module Enrollment {
  import opened Text

  type CallId = nat

  /** Tokens by their unique token string. */
  datatype Token = Token(target: nat, expiresAt: int, usedAt: Option<int>)
  type Tokens = map<string, Token>

  /** How long a token is valid, in nanoseconds. */
  const TOKEN_TTL: int := 3_600_000_000_000

  // ---- Storage operations ----

  function Generated(tokens: Tokens, t: string, target: nat, now: int): (r: Tokens) {
    tokens[t := Token(target, now + TOKEN_TTL, None)]
  }

  /** A token is accepted when it exists, is unused, and its expiry has not passed. */
  predicate Acceptable(tokens: Tokens, t: string, now: int) {
    t in tokens && tokens[t].usedAt.None? && now <= tokens[t].expiresAt
  }

  /** The conditional update matches the row only while it is unused. */
  predicate Unused(tokens: Tokens, t: string) {
    t in tokens && tokens[t].usedAt.None?
  }

  function MarkedUsed(tokens: Tokens, t: string, now: int): (r: Tokens) {
    if Unused(tokens, t) then tokens[t := tokens[t].(usedAt := Some(now))] else tokens
  }

  class TokenStore {
    var tokens: Tokens

    constructor ()
      ensures tokens == map[]
    {
      tokens := map[];
    }

    method Generate(t: string, target: nat, now: int) returns (ok: bool)
      modifies this
      ensures ok == (t !in old(tokens))
      ensures tokens == if ok then Generated(old(tokens), t, target, now) else old(tokens)
    {
      if t in tokens {
        return false;
      }
      tokens := tokens[t := Token(target, now + TOKEN_TTL, None)];
      return true;
    }

    method Validate(t: string, now: int) returns (token: Option<Token>)
      ensures token == if Acceptable(tokens, t, now) then Some(tokens[t]) else None
    {
      if t !in tokens {
        return None;
      }
      var found := tokens[t];
      if found.usedAt.Some? {
        return None;
      }
      if now > found.expiresAt {
        return None;
      }
      return Some(found);
    }

    method MarkUsed(t: string, now: int) returns (ok: bool)
      modifies this
      ensures ok == Unused(old(tokens), t)
      ensures tokens == MarkedUsed(old(tokens), t, now)
    {
      if t in tokens && tokens[t].usedAt.None? {
        tokens := tokens[t := tokens[t].(usedAt := Some(now))];
        return true;
      }
      return false;
    }
  }

  // ---- Calls in flight ----

  /** How far a call has got; it remembers when it read the token. */
  datatype Phase =
    | Begun
    | Validated        // token read and accepted
    | NodeRead         // target node read
    | NeedsPeer        // no peer record yet: list, allocate, create
    | PeersListed
    | NodesListed
    | ReadyToMark      // peer present
    | Marked           // token marked used by this call
    | Succeeded
    | Failed

  datatype Call = Call(token: string, phase: Phase, readAt: int)
  datatype System = System(tokens: Tokens, calls: map<CallId, Call>)

  datatype Step =
    | Generate(t: string, target: nat, now: int)
    | Begin(c: CallId, t: string)
    | ReadToken(c: CallId, now: int)
    | ReadNode(c: CallId)
    | ReadPeer(c: CallId, found: bool)
    | ListPeers(c: CallId)
    | ListNodes(c: CallId)
    | CreatePeer(c: CallId)
    | Mark(c: CallId, now: int)
    | UpdateNode(c: CallId)
    | Error(c: CallId)                    // a storage operation fails without effect
    | LostReply(c: CallId, now: int)      // the mark takes effect but the call sees an error

  predicate InPhase(s: System, c: CallId, p: Phase) {
    c in s.calls && s.calls[c].phase == p
  }

  function Moved(s: System, c: CallId, p: Phase): (r: System)
    requires c in s.calls
  {
    s.(calls := s.calls[c := s.calls[c].(phase := p)])
  }

  ghost predicate Enabled(s: System, step: Step) {
    match step
    case Generate(t, _, _) => t !in s.tokens
    case Begin(c, t) => c !in s.calls
    case ReadToken(c, _) => InPhase(s, c, Begun)
    case ReadNode(c) => InPhase(s, c, Validated)
    case ReadPeer(c, _) => InPhase(s, c, NodeRead)
    case ListPeers(c) => InPhase(s, c, NeedsPeer)
    case ListNodes(c) => InPhase(s, c, PeersListed)
    case CreatePeer(c) => InPhase(s, c, NodesListed)
    case Mark(c, _) => InPhase(s, c, ReadyToMark)
    case UpdateNode(c) => InPhase(s, c, Marked)
    case Error(c) => c in s.calls && !s.calls[c].phase.Succeeded?
    case LostReply(c, _) => InPhase(s, c, ReadyToMark)
  }

  ghost function Apply(s: System, step: Step): (r: System)
    requires Enabled(s, step)
  {
    match step
    case Generate(t, target, now) => s.(tokens := Generated(s.tokens, t, target, now))
    case Begin(c, t) => s.(calls := s.calls[c := Call(t, Begun, 0)])
    case ReadToken(c, now) =>
      var call := s.calls[c];
      if Acceptable(s.tokens, call.token, now) then s.(calls := s.calls[c := Call(call.token, Validated, now)])
      else Moved(s, c, Failed)
    case ReadNode(c) => Moved(s, c, NodeRead)
    case ReadPeer(c, found) => Moved(s, c, if found then ReadyToMark else NeedsPeer)
    case ListPeers(c) => Moved(s, c, PeersListed)
    case ListNodes(c) => Moved(s, c, NodesListed)
    case CreatePeer(c) => Moved(s, c, ReadyToMark)
    case Mark(c, now) =>
      var t := s.calls[c].token;
      Moved(s, c, if Unused(s.tokens, t) then Marked else Failed).(tokens := MarkedUsed(s.tokens, t, now))
    case UpdateNode(c) => Moved(s, c, Succeeded)
    case Error(c) => Moved(s, c, Failed)
    case LostReply(c, now) => Moved(s, c, Failed).(tokens := MarkedUsed(s.tokens, s.calls[c].token, now))
  }

  // ---- The invariant ----

  predicate Past(p: Phase) {
    !p.Begun? && !p.Failed?
  }

  /** The call won its token: it marked the token and has not failed. */
  predicate Won(s: System, c: CallId) {
    c in s.calls && (s.calls[c].phase.Marked? || s.calls[c].phase.Succeeded?)
  }

  ghost predicate OneWinner(s: System) {
    && (forall c | Won(s, c) :: s.calls[c].token in s.tokens && s.tokens[s.calls[c].token].usedAt.Some?)
    && (forall c, d | Won(s, c) && Won(s, d) && s.calls[c].token == s.calls[d].token :: c == d)
    && (forall c | c in s.calls && Past(s.calls[c].phase) ::
          s.calls[c].token in s.tokens && s.calls[c].readAt <= s.tokens[s.calls[c].token].expiresAt)
  }

  /** A call that moves on without marking wins nothing it had not won. */
  lemma MoveKeepsOneWinner(s: System, c: CallId, p: Phase)
    requires OneWinner(s) && c in s.calls && (Past(p) ==> Past(s.calls[c].phase))
    requires p.Marked? || p.Succeeded? ==> Won(s, c)
    ensures OneWinner(Moved(s, c, p))
  {
    var r := Moved(s, c, p);
    forall d | Won(r, d) ensures Won(s, d) && r.calls[d].token == s.calls[d].token {}
  }

  /** Using up a token hurts no winner and no reader. */
  lemma AgingKeepsOneWinner(s: System, t: string, now: int)
    requires OneWinner(s)
    ensures OneWinner(s.(tokens := MarkedUsed(s.tokens, t, now)))
  {
    var r := s.(tokens := MarkedUsed(s.tokens, t, now));
    forall d | Won(r, d) ensures Won(s, d) {}
  }

  /** Marking makes the call the only winner: an earlier winner would have left the token used. */
  lemma MarkKeepsOneWinner(s: System, c: CallId, now: int)
    requires OneWinner(s) && InPhase(s, c, ReadyToMark)
    ensures OneWinner(Apply(s, Mark(c, now)))
  {
    var t, r := s.calls[c].token, Apply(s, Mark(c, now));
    forall d | Won(r, d) && d != c ensures Won(s, d) && (Unused(s.tokens, t) ==> s.calls[d].token != t) {}
  }

  lemma GenerateKeepsOneWinner(s: System, step: Step)
    requires OneWinner(s) && Enabled(s, step) && step.Generate?
    ensures OneWinner(Apply(s, step))
  {
    forall d | Won(Apply(s, step), d) ensures Won(s, d) {}
  }

  lemma ArrivalKeepsOneWinner(s: System, step: Step)
    requires OneWinner(s) && Enabled(s, step) && (step.Begin? || step.ReadToken?)
    ensures OneWinner(Apply(s, step))
  {
    forall d | Won(Apply(s, step), d) ensures Won(s, d) && d != step.c {}
  }

  lemma StepKeepsOneWinner(s: System, step: Step)
    requires OneWinner(s) && Enabled(s, step)
    ensures OneWinner(Apply(s, step))
  {
    match step
    case Generate(_, _, _) => GenerateKeepsOneWinner(s, step);
    case Begin(_, _) => ArrivalKeepsOneWinner(s, step);
    case ReadToken(_, _) => ArrivalKeepsOneWinner(s, step);
    case ReadNode(c) => MoveKeepsOneWinner(s, c, NodeRead);
    case ReadPeer(c, found) => MoveKeepsOneWinner(s, c, if found then ReadyToMark else NeedsPeer);
    case ListPeers(c) => MoveKeepsOneWinner(s, c, PeersListed);
    case ListNodes(c) => MoveKeepsOneWinner(s, c, NodesListed);
    case CreatePeer(c) => MoveKeepsOneWinner(s, c, ReadyToMark);
    case Mark(c, now) => MarkKeepsOneWinner(s, c, now);
    case UpdateNode(c) => MoveKeepsOneWinner(s, c, Succeeded);
    case Error(c) => MoveKeepsOneWinner(s, c, Failed);
    case LostReply(c, now) =>
      MoveKeepsOneWinner(s, c, Failed);
      AgingKeepsOneWinner(Moved(s, c, Failed), s.calls[c].token, now);
  }

  ghost predicate Execution(states: seq<System>, steps: seq<Step>) {
    && |states| == |steps| + 1 && states[0] == System(map[], map[])
    && forall i | 0 <= i < |steps| :: Enabled(states[i], steps[i]) && states[i + 1] == Apply(states[i], steps[i])
  }

  lemma {:induction false} AlwaysOneWinner(states: seq<System>, steps: seq<Step>, i: nat)
    requires Execution(states, steps) && i < |states|
    ensures OneWinner(states[i])
    decreases i
  {
    if i == 0 {
    } else {
      AlwaysOneWinner(states, steps, i - 1);
      StepKeepsOneWinner(states[i - 1], steps[i - 1]);
    }
  }

  /** A token string is generated once and never removed, keeps its expiry, and once used stays used. */
  lemma {:induction false} TokensOnlyAge(states: seq<System>, steps: seq<Step>, i: nat, j: nat, t: string)
    requires Execution(states, steps) && i <= j < |states| && t in states[i].tokens
    ensures t in states[j].tokens && states[j].tokens[t].expiresAt == states[i].tokens[t].expiresAt
    ensures states[i].tokens[t].usedAt.Some? ==> states[j].tokens[t] == states[i].tokens[t]
    decreases j
  {
    if i < j { TokensOnlyAge(states, steps, i, j - 1, t); }
  }

  /**
   * At most one call per token ever succeeds, however the calls interleave and whichever operations fail; the
   * successful call read the token before it expired; and once it has succeeded the token is refused for good.
   */
  lemma OneTimeEnrollment(states: seq<System>, steps: seq<Step>, i: nat, c: CallId)
    requires Execution(states, steps) && i < |states| && InPhase(states[i], c, Succeeded)
    ensures var t := states[i].calls[c].token;
      && (forall d | InPhase(states[i], d, Succeeded) && states[i].calls[d].token == t :: d == c)
      && t in states[i].tokens && states[i].calls[c].readAt <= states[i].tokens[t].expiresAt
      && forall j, now | i <= j < |states| :: !Acceptable(states[j].tokens, t, now)
  {
    AlwaysOneWinner(states, steps, i);
    var t := states[i].calls[c].token;
    assert Won(states[i], c);
    forall d | InPhase(states[i], d, Succeeded) && states[i].calls[d].token == t ensures d == c {
      assert Won(states[i], d);
    }
    forall j, now | i <= j < |states| ensures !Acceptable(states[j].tokens, t, now) {
      TokensOnlyAge(states, steps, i, j, t);
    }
  }

  // ---- Tokens work until they are used or expire ----

  /** The step uses the token up, whether or not the call learns of it. */
  predicate UsesUp(s: System, step: Step, t: string) {
    (step.Mark? || step.LostReply?) && step.c in s.calls && s.calls[step.c].token == t
  }

  ghost predicate UsedBetween(states: seq<System>, steps: seq<Step>, i: nat, j: nat, t: string)
    requires j <= |steps| && |states| == |steps| + 1
  {
    exists m :: i <= m < j && UsesUp(states[m], steps[m], t)
  }

  lemma UsedOneMore(states: seq<System>, steps: seq<Step>, i: nat, j: nat, t: string)
    requires i <= j < |steps| && |states| == |steps| + 1
    ensures UsedBetween(states, steps, i, j + 1, t) <==>
      UsedBetween(states, steps, i, j, t) || UsesUp(states[j], steps[j], t)
  {
  }

  lemma TokenStep(s: System, step: Step, t: string)
    requires Enabled(s, step) && t in s.tokens
    ensures var r := Apply(s, step).tokens;
      && t in r && r[t].target == s.tokens[t].target && r[t].expiresAt == s.tokens[t].expiresAt
      && (r[t].usedAt.None? <==> s.tokens[t].usedAt.None? && !UsesUp(s, step, t))
  {
  }

  lemma {:induction false} TokenHistory(states: seq<System>, steps: seq<Step>, i: nat, j: nat, t: string,
                                        target: nat, at: int)
    requires Execution(states, steps) && i < j < |states| && steps[i] == Generate(t, target, at)
    ensures t in states[j].tokens && states[j].tokens[t].target == target
    ensures states[j].tokens[t].expiresAt == at + 3_600_000_000_000
    ensures states[j].tokens[t].usedAt.None? <==> !UsedBetween(states, steps, i + 1, j, t)
    decreases j
  {
    if j == i + 1 {
    } else {
      TokenHistory(states, steps, i, j - 1, t, target, at);
      TokenStep(states[j - 1], steps[j - 1], t);
      UsedOneMore(states, steps, i + 1, j - 1, t);
    }
  }

  /**
   * In every run a token is accepted exactly until one hour after it was generated or until a call marks it used,
   * whichever comes first, and keeps its target.
   */
  lemma AcceptedExactly(states: seq<System>, steps: seq<Step>, i: nat, j: nat, t: string, target: nat, at: int,
                        now: int)
    requires Execution(states, steps) && i < j < |states| && steps[i] == Generate(t, target, at)
    ensures Acceptable(states[j].tokens, t, now) <==>
      now <= at + 3_600_000_000_000 && !UsedBetween(states, steps, i + 1, j, t)
    ensures t in states[j].tokens && states[j].tokens[t].target == target
  {
    TokenHistory(states, steps, i, j, t, target, at);
  }

  ghost predicate StepsTo(s: System, step: Step, r: System) {
    Enabled(s, step) && r == Apply(s, step)
  }

  /** The steps lead from `s` to `r`. */
  ghost predicate LeadsTo(s: System, steps: seq<Step>, r: System)
    decreases |steps|
  {
    if steps == [] then r == s
    else Enabled(s, steps[0]) && LeadsTo(Apply(s, steps[0]), steps[1..], r)
  }

  lemma LeadsFirst(s: System, step: Step, t: System, rest: seq<Step>, r: System)
    requires StepsTo(s, step, t) && LeadsTo(t, rest, r)
    ensures LeadsTo(s, [step] + rest, r)
  {
    assert ([step] + rest)[1..] == rest;
  }

  /** What a call that meets no error does, with the peer found or still to be created. */
  function Undisturbed(c: CallId, t: string, now: int, found: bool): (steps: seq<Step>) {
    [Begin(c, t)] + ([ReadToken(c, now)] + ([ReadNode(c)] + ([ReadPeer(c, found)] +
    (if found then Marking(c, now) else [ListPeers(c)] + ([ListNodes(c)] + ([CreatePeer(c)] + Marking(c, now)))))))
  }

  function Marking(c: CallId, now: int): (steps: seq<Step>) {
    [Mark(c, now)] + ([UpdateNode(c)] + [])
  }

  lemma MarkingSucceeds(s: System, c: CallId, now: int) returns (r: System)
    requires InPhase(s, c, ReadyToMark) && Unused(s.tokens, s.calls[c].token)
    ensures LeadsTo(s, Marking(c, now), r) && InPhase(r, c, Succeeded) && r.calls[c].token == s.calls[c].token
  {
    var t := Apply(s, Mark(c, now));
    r := Apply(t, UpdateNode(c));
    LeadsFirst(t, UpdateNode(c), r, [], r);
    LeadsFirst(s, Mark(c, now), t, [UpdateNode(c)] + [], r);
  }

  lemma CreatingSucceeds(s: System, c: CallId, now: int) returns (r: System)
    requires InPhase(s, c, NeedsPeer) && Unused(s.tokens, s.calls[c].token)
    ensures LeadsTo(s, [ListPeers(c)] + ([ListNodes(c)] + ([CreatePeer(c)] + Marking(c, now))), r)
    ensures InPhase(r, c, Succeeded) && r.calls[c].token == s.calls[c].token
  {
    var s1 := Apply(s, ListPeers(c));
    var s2 := Apply(s1, ListNodes(c));
    var s3 := Apply(s2, CreatePeer(c));
    r := MarkingSucceeds(s3, c, now);
    LeadsFirst(s2, CreatePeer(c), s3, Marking(c, now), r);
    LeadsFirst(s1, ListNodes(c), s2, [CreatePeer(c)] + Marking(c, now), r);
    LeadsFirst(s, ListPeers(c), s1, [ListNodes(c)] + ([CreatePeer(c)] + Marking(c, now)), r);
  }

  /** From every state, a new call with an acceptable token that meets no error succeeds. */
  lemma UndisturbedSucceeds(s: System, c: CallId, t: string, now: int, found: bool) returns (r: System)
    requires c !in s.calls && Acceptable(s.tokens, t, now)
    ensures LeadsTo(s, Undisturbed(c, t, now, found), r) && InPhase(r, c, Succeeded) && r.calls[c].token == t
  {
    var s1 := Apply(s, Begin(c, t));
    var s2 := Apply(s1, ReadToken(c, now));
    var s3 := Apply(s2, ReadNode(c));
    var s4 := Apply(s3, ReadPeer(c, found));
    var rest := if found then Marking(c, now)
                else [ListPeers(c)] + ([ListNodes(c)] + ([CreatePeer(c)] + Marking(c, now)));
    if found { r := MarkingSucceeds(s4, c, now); } else { r := CreatingSucceeds(s4, c, now); }
    LeadsFirst(s3, ReadPeer(c, found), s4, rest, r);
    LeadsFirst(s2, ReadNode(c), s3, [ReadPeer(c, found)] + rest, r);
    LeadsFirst(s1, ReadToken(c, now), s2, [ReadNode(c)] + ([ReadPeer(c, found)] + rest), r);
    LeadsFirst(s, Begin(c, t), s1, [ReadToken(c, now)] + ([ReadNode(c)] + ([ReadPeer(c, found)] + rest)), r);
  }
}
