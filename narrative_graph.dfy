/**
 * The turn-taking state machine: director_select -> character_respond ->
 * check_conclusion -> conclude | director_select. Each node returns a
 * partial update of the story state, which the runtime merges key by key.
 */
module NarrativeGraph {
  import opened Wrappers
  import opened Schemas
  import opened Director

  /** The keys a node may set; None leaves the state's value as it is. */
  datatype Patch = Patch(
    nextSpeaker: Option<string>,
    directorNotes: Option<seq<string>>,
    dialogueHistory: Option<seq<DialogueTurn>>,
    currentTurn: Option<int>,
    isConcluded: Option<bool>,
    conclusionReason: Option<string>)

  const NoChange: Patch := Patch(None, None, None, None, None, None)

  /** The runtime's merge of a node's partial update into the state. */
  function Apply(s: StoryState, p: Patch): StoryState {
    s.(nextSpeaker := if p.nextSpeaker.Some? then p.nextSpeaker else s.nextSpeaker,
       directorNotes := p.directorNotes.GetOr(s.directorNotes),
       dialogueHistory := p.dialogueHistory.GetOr(s.dialogueHistory),
       currentTurn := p.currentTurn.GetOr(s.currentTurn),
       isConcluded := p.isConcluded.GetOr(s.isConcluded),
       conclusionReason := if p.conclusionReason.Some? then p.conclusionReason else s.conclusionReason)
  }

  /** The registered character names in order of first registration: the keys of the agent dictionary. */
  function DistinctNames(names: seq<string>): (r: seq<string>)
    ensures forall x :: x in r <==> x in names
    ensures forall i, j :: 0 <= i < j < |r| ==> r[i] != r[j]
    ensures names != [] ==> r != [] && r[0] == names[0]
    decreases |names|
  {
    if names == [] then []
    else
      var init := DistinctNames(names[..|names| - 1]);
      var last := names[|names| - 1];
      assert forall x :: x in names <==> x in names[..|names| - 1] || x == last;
      if last in init then init else init + [last]
  }

  /**
   * Offering the director the dictionary's keys instead of the raw agent
   * list makes no difference: both have the same members and first element.
   */
  lemma SelectOverDistinctNames(reply: Option<SpeakerReply>, agents: seq<string>)
    ensures SelectNextSpeaker(reply, DistinctNames(agents)) == SelectNextSpeaker(reply, agents)
  {
  }

  /** _director_select_node: the validated speaker becomes next_speaker and one note is appended. */
  function DirectorSelectStep(s: StoryState, agents: seq<string>, reply: Option<SpeakerReply>): (p: Patch)
    requires agents != []
    ensures var t := Apply(s, p);
      && t.nextSpeaker.Some? && t.nextSpeaker.value in agents
      && |t.directorNotes| == |s.directorNotes| + 1
      && t.directorNotes[..|s.directorNotes|] == s.directorNotes
      && t.directorNotes[|s.directorNotes|] == "Selected: " + t.nextSpeaker.value
      && t == s.(nextSpeaker := t.nextSpeaker, directorNotes := t.directorNotes)
    ensures Apply(s, p).nextSpeaker == Some(SelectNextSpeaker(reply, agents).value.speaker)
  {
    SelectOverDistinctNames(reply, agents);
    var choice := SelectNextSpeaker(reply, DistinctNames(agents));
    NoChange.(nextSpeaker := Some(choice.value.speaker),
              directorNotes := Some(s.directorNotes + ["Selected: " + choice.value.speaker]))
  }

  /** The responding character: next_speaker when it is a non-empty registered name, else the first agent. */
  function ResolveSpeaker(nextSpeaker: Option<string>, agents: seq<string>): (r: string)
    requires agents != []
    ensures r in agents
    ensures nextSpeaker.Some? && nextSpeaker.value != "" && nextSpeaker.value in agents ==> r == nextSpeaker.value
    ensures nextSpeaker.None? || nextSpeaker.value == "" || nextSpeaker.value !in agents ==> r == agents[0]
  {
    if nextSpeaker.None? || nextSpeaker.value == "" || nextSpeaker.value !in agents then agents[0]
    else nextSpeaker.value
  }

  /**
   * _character_respond_node: one turn, numbered after the current turn and
   * spoken by the resolved character, is appended, and the counter advances.
   */
  function CharacterRespondStep(s: StoryState, agents: seq<string>, response: string): (p: Patch)
    requires agents != []
    ensures var t := Apply(s, p);
      && |t.dialogueHistory| == |s.dialogueHistory| + 1
      && t.dialogueHistory[..|s.dialogueHistory|] == s.dialogueHistory
      && t.dialogueHistory[|s.dialogueHistory|]
         == DialogueTurn(s.currentTurn + 1, ResolveSpeaker(s.nextSpeaker, agents), response, map[])
      && t.currentTurn == s.currentTurn + 1
      && t == s.(dialogueHistory := t.dialogueHistory, currentTurn := t.currentTurn)
  {
    var speaker := ResolveSpeaker(s.nextSpeaker, agents);
    var turn := DialogueTurn(s.currentTurn + 1, speaker, response, map[]);
    NoChange.(dialogueHistory := Some(s.dialogueHistory + [turn]), currentTurn := Some(s.currentTurn + 1))
  }

  /** Python's `str` of an optional narration: a missing one becomes the text "None". */
  function PyStr(narration: Option<string>): (r: string)
    ensures narration.Some? ==> r == narration.value
    ensures narration.None? ==> r == "None"
  {
    if narration.Some? then narration.value else "None"
  }

  /**
   * _check_conclusion_node: a decision to end concludes the story with the
   * narration as reason; otherwise the story is marked not concluded and the
   * reason is left as it was.
   */
  function CheckConclusionStep(s: StoryState, reply: Option<ConclusionReply>, limits: Limits): (p: Patch)
    ensures var d := CheckConclusion(reply, |s.actionHistory|, s.currentTurn, limits);
      && (d.shouldEnd ==> Apply(s, p) == s.(isConcluded := true, conclusionReason := Some(PyStr(d.narration))))
      && (!d.shouldEnd ==> Apply(s, p) == s.(isConcluded := false))
  {
    var d := CheckConclusion(reply, |s.actionHistory|, s.currentTurn, limits);
    if d.shouldEnd then NoChange.(isConcluded := Some(true), conclusionReason := Some(PyStr(d.narration)))
    else NoChange.(isConcluded := Some(false))
  }

  /** _conclude_node: marks the story concluded and changes nothing else. */
  function ConcludeStep(s: StoryState): (p: Patch)
    ensures Apply(s, p) == s.(isConcluded := true)
  {
    NoChange.(isConcluded := Some(true))
  }

  /** Running conclude again on its own result changes nothing. */
  lemma ConcludeIdempotent(s: StoryState)
    ensures var t := Apply(s, ConcludeStep(s));
      Apply(t, ConcludeStep(t)) == t && t.isConcluded
  {
  }

  datatype Node = SelectNode | RespondNode | CheckNode | ConcludeNode | EndNode

  /** The labels of the conditional edge leaving check_conclusion. */
  datatype Route = ToConclude | ToContinue

  /** _route_conclusion: the route depends on is_concluded alone. */
  function RouteConclusion(s: StoryState): (r: Route)
    ensures r == ToConclude <==> s.isConcluded
  {
    if s.isConcluded then ToConclude else ToContinue
  }

  const Entry: Node := SelectNode

  /** Distance to the end of the graph along its forward edges. */
  function Rank(n: Node): nat {
    match n
    case SelectNode => 4
    case RespondNode => 3
    case CheckNode => 2
    case ConcludeNode => 1
    case EndNode => 0
  }

  /**
   * The edges of _build_graph: every edge moves forward except the
   * "continue" edge from check_conclusion back to director_select, which is
   * taken exactly when the story is not concluded.
   */
  function Next(n: Node, s: StoryState): (r: Node)
    ensures r == SelectNode <==> n == CheckNode && !s.isConcluded
    ensures n == CheckNode && s.isConcluded ==> r == ConcludeNode
    ensures n != CheckNode && n != EndNode ==> Rank(r) + 1 == Rank(n)
    ensures n == EndNode ==> r == EndNode
  {
    match n
    case SelectNode => RespondNode
    case RespondNode => CheckNode
    case CheckNode => if RouteConclusion(s) == ToConclude then ConcludeNode else SelectNode
    case ConcludeNode => EndNode
    case EndNode => EndNode
  }

  /** The delegate's answers for one cycle: the speaker choice, the character's text, the conclusion decision. */
  datatype DelegateTurn = DelegateTurn(
    speakerReply: Option<SpeakerReply>,
    response: string,
    conclusionReply: Option<ConclusionReply>)

  /** The partial update node n returns. */
  function NodeStep(n: Node, s: StoryState, agents: seq<string>, d: DelegateTurn, limits: Limits): Patch
    requires agents != []
  {
    match n
    case SelectNode => DirectorSelectStep(s, agents, d.speakerReply)
    case RespondNode => CharacterRespondStep(s, agents, d.response)
    case CheckNode => CheckConclusionStep(s, d.conclusionReply, limits)
    case ConcludeNode => ConcludeStep(s)
    case EndNode => NoChange
  }

  /** A node inside a cycle, which needs the delegate's answers for that cycle. */
  predicate NeedsTurn(n: Node) {
    n == RespondNode || n == CheckNode || n == ConcludeNode
  }

  /**
   * The compiled graph run from node n on state s, where rest holds the
   * delegate's answers for the current and the following cycles. It stops at
   * END, or before a new cycle when rest is used up (the fuel bound). The
   * result is the final state and the number of character turns taken.
   */
  function Exec(n: Node, s: StoryState, agents: seq<string>, rest: seq<DelegateTurn>, limits: Limits)
    : (StoryState, nat)
    requires agents != []
    requires NeedsTurn(n) ==> rest != []
    decreases |rest|, Rank(n)
  {
    if n == EndNode || (n == SelectNode && rest == []) then (s, 0)
    else
      var t := Apply(s, NodeStep(n, s, agents, rest[0], limits));
      var m := Next(n, t);
      var r := Exec(m, t, agents, if m == SelectNode then rest[1..] else rest, limits);
      (r.0, if n == RespondNode then r.1 + 1 else r.1)
  }

  /** The graph's initial state: the seed story and every other field at its default. */
  function InitialGraphState(seed: map<string, string>): StoryState {
    NewStoryState(seed, map[], map[])
  }

  /** One node step: only character_respond adds a turn, and no node touches the actions, profiles or world state. */
  lemma StepCountsTurns(n: Node, s: StoryState, agents: seq<string>, d: DelegateTurn, limits: Limits)
    requires agents != []
    ensures var t := Apply(s, NodeStep(n, s, agents, d, limits));
      var added := if n == RespondNode then 1 else 0;
      && t.currentTurn == s.currentTurn + added
      && |t.dialogueHistory| == |s.dialogueHistory| + added
      && t.dialogueHistory[..|s.dialogueHistory|] == s.dialogueHistory
      && t.actionHistory == s.actionHistory
      && t.characterProfiles == s.characterProfiles
      && t.worldState == s.worldState
  {
  }

  /**
   * Every character turn appends one dialogue turn and advances the counter
   * by one; earlier turns are kept, and nothing touches the actions, the
   * profiles or the world state.
   */
  lemma {:induction false} ExecCountsTurns(n: Node, s: StoryState, agents: seq<string>, rest: seq<DelegateTurn>,
                                           limits: Limits)
    requires agents != [] && (NeedsTurn(n) ==> rest != [])
    ensures var r := Exec(n, s, agents, rest, limits);
      && r.0.currentTurn == s.currentTurn + r.1
      && |r.0.dialogueHistory| == |s.dialogueHistory| + r.1
      && r.0.dialogueHistory[..|s.dialogueHistory|] == s.dialogueHistory
      && r.0.actionHistory == s.actionHistory
      && r.0.characterProfiles == s.characterProfiles
      && r.0.worldState == s.worldState
    decreases |rest|, Rank(n)
  {
    if !(n == EndNode || (n == SelectNode && rest == [])) {
      var t := Apply(s, NodeStep(n, s, agents, rest[0], limits));
      var m := Next(n, t);
      var rest' := if m == SelectNode then rest[1..] else rest;
      StepCountsTurns(n, s, agents, rest[0], limits);
      ExecCountsTurns(m, t, agents, rest', limits);
      var r := Exec(m, t, agents, rest', limits);
      assert r.0.dialogueHistory[..|t.dialogueHistory|] == t.dialogueHistory;
      assert t.dialogueHistory[..|s.dialogueHistory|] == s.dialogueHistory;
      assert r.0.dialogueHistory[..|s.dialogueHistory|] == r.0.dialogueHistory[..|t.dialogueHistory|][..|s.dialogueHistory|];
    }
  }

  /** The graph keeps the turns numbered consecutively and the counter equal to their number. */
  lemma {:induction false} ExecKeepsTurnsNumbered(n: Node, s: StoryState, agents: seq<string>,
                                                  rest: seq<DelegateTurn>, limits: Limits)
    requires agents != [] && (NeedsTurn(n) ==> rest != [])
    requires TurnsNumbered(s)
    ensures TurnsNumbered(Exec(n, s, agents, rest, limits).0)
    decreases |rest|, Rank(n)
  {
    if !(n == EndNode || (n == SelectNode && rest == [])) {
      var t := Apply(s, NodeStep(n, s, agents, rest[0], limits));
      var m := Next(n, t);
      assert TurnsNumbered(t) by {
        if n == RespondNode {
          forall k | 0 <= k < |t.dialogueHistory| ensures t.dialogueHistory[k].turnNumber == k + 1 {
            if k < |s.dialogueHistory| {
              assert t.dialogueHistory[k] == t.dialogueHistory[..|s.dialogueHistory|][k];
            }
          }
        }
      }
      ExecKeepsTurnsNumbered(m, t, agents, if m == SelectNode then rest[1..] else rest, limits);
    }
  }

  /** The cycles still owed at node n: the one under way is counted at check_conclusion and conclude. */
  function Pending(n: Node): nat {
    if n == CheckNode || n == ConcludeNode then 1 else 0
  }

  /** conclude and END are reached only once the story is concluded. */
  predicate NodeReached(n: Node, s: StoryState) {
    n == ConcludeNode || n == EndNode ==> s.isConcluded
  }

  /**
   * The run takes at most one character turn per delegate cycle, and
   * stopping before the cycles run out means the story concluded.
   */
  lemma {:induction false} ExecFuel(n: Node, s: StoryState, agents: seq<string>, rest: seq<DelegateTurn>,
                                    limits: Limits)
    requires agents != [] && (NeedsTurn(n) ==> rest != [])
    requires NodeReached(n, s)
    ensures var r := Exec(n, s, agents, rest, limits);
      && r.1 + Pending(n) <= |rest|
      && (r.1 + Pending(n) < |rest| ==> r.0.isConcluded)
    decreases |rest|, Rank(n)
  {
    if !(n == EndNode || (n == SelectNode && rest == [])) {
      var t := Apply(s, NodeStep(n, s, agents, rest[0], limits));
      var m := Next(n, t);
      ExecFuel(m, t, agents, if m == SelectNode then rest[1..] else rest, limits);
    }
  }

  /** The thresholds held whenever the story is marked concluded. */
  ghost predicate GatesHeld(s: StoryState, limits: Limits) {
    s.isConcluded ==>
      && s.currentTurn >= limits.minTurns
      && (|s.actionHistory| >= limits.minActions || s.currentTurn >= limits.maxTurns)
  }

  /** Whatever the delegate answers, the graph concludes only with the conclusion gates passed. */
  lemma {:induction false} ExecKeepsGates(n: Node, s: StoryState, agents: seq<string>, rest: seq<DelegateTurn>,
                                          limits: Limits)
    requires agents != [] && (NeedsTurn(n) ==> rest != [])
    requires NodeReached(n, s) && GatesHeld(s, limits)
    ensures GatesHeld(Exec(n, s, agents, rest, limits).0, limits)
    decreases |rest|, Rank(n)
  {
    if !(n == EndNode || (n == SelectNode && rest == [])) {
      var t := Apply(s, NodeStep(n, s, agents, rest[0], limits));
      var m := Next(n, t);
      ExecKeepsGates(m, t, agents, if m == SelectNode then rest[1..] else rest, limits);
    }
  }

  /** The delegate never asks to end in this cycle (or its reply does not parse). */
  predicate Declines(d: DelegateTurn) {
    d.conclusionReply.None? || !Requested(d.conclusionReply.value)
  }

  /** When the delegate never asks to end, the graph takes a turn for every cycle and never concludes. */
  lemma {:induction false} ExecWhileDeclined(n: Node, s: StoryState, agents: seq<string>, rest: seq<DelegateTurn>,
                                             limits: Limits)
    requires agents != [] && (n == SelectNode || n == RespondNode || n == CheckNode)
    requires NeedsTurn(n) ==> rest != []
    requires !s.isConcluded
    requires forall k :: 0 <= k < |rest| ==> Declines(rest[k])
    ensures var r := Exec(n, s, agents, rest, limits);
      r.1 + Pending(n) == |rest| && !r.0.isConcluded
    decreases |rest|, Rank(n)
  {
    if !(n == SelectNode && rest == []) {
      var t := Apply(s, NodeStep(n, s, agents, rest[0], limits));
      var m := Next(n, t);
      assert Declines(rest[0]);
      var rest' := if m == SelectNode then rest[1..] else rest;
      assert forall k :: 0 <= k < |rest'| ==> Declines(rest'[k]) by {
        if m == SelectNode {
          forall k | 0 <= k < |rest'| ensures Declines(rest'[k]) { assert rest'[k] == rest[k + 1]; }
        }
      }
      ExecWhileDeclined(m, t, agents, rest', limits);
    }
  }

  /**
   * From the graph's initial state, after the run the counter equals both
   * the number of character turns taken and the length of the dialogue,
   * the turns are numbered 1, 2, ..., at most one turn is taken per cycle,
   * stopping early means the story concluded, and a concluded story passed
   * the conclusion gates.
   */
  lemma RunFromInitial(seed: map<string, string>, agents: seq<string>, script: seq<DelegateTurn>, limits: Limits)
    requires agents != []
    ensures var r := Exec(Entry, InitialGraphState(seed), agents, script, limits);
      && r.0.currentTurn == r.1 == |r.0.dialogueHistory|
      && (forall k :: 0 <= k < |r.0.dialogueHistory| ==> r.0.dialogueHistory[k].turnNumber == k + 1)
      && r.1 <= |script|
      && (r.1 < |script| ==> r.0.isConcluded)
      && (r.0.isConcluded ==> r.0.currentTurn >= limits.minTurns
                              && (limits.minActions <= 0 || r.0.currentTurn >= limits.maxTurns))
  {
    var s := InitialGraphState(seed);
    ExecCountsTurns(Entry, s, agents, script, limits);
    ExecKeepsTurnsNumbered(Entry, s, agents, script, limits);
    ExecFuel(Entry, s, agents, script, limits);
    ExecKeepsGates(Entry, s, agents, script, limits);
  }

  /**
   * The loop has no max-turn ceiling: a delegate that never asks to end
   * keeps the story going for as many cycles as it is given, past any
   * maxTurns.
   */
  lemma NoMaxTurnCeiling(seed: map<string, string>, agents: seq<string>, script: seq<DelegateTurn>, limits: Limits)
    requires agents != []
    requires forall k :: 0 <= k < |script| ==> Declines(script[k])
    ensures var r := Exec(Entry, InitialGraphState(seed), agents, script, limits);
      r.1 == |script| && r.0.currentTurn == |script| && !r.0.isConcluded
  {
    ExecWhileDeclined(Entry, InitialGraphState(seed), agents, script, limits);
    ExecCountsTurns(Entry, InitialGraphState(seed), agents, script, limits);
  }

  /**
   * NarrativeGraph.run: the graph executed node by node from its initial
   * state until END, or until the delegate's cycles are used up.
   */
  method Run(seed: map<string, string>, agents: seq<string>, script: seq<DelegateTurn>, limits: Limits)
    returns (s: StoryState, turns: nat)
    requires agents != []
    ensures (s, turns) == Exec(Entry, InitialGraphState(seed), agents, script, limits)
    ensures s.currentTurn == turns == |s.dialogueHistory| && turns <= |script|
    ensures turns < |script| ==> s.isConcluded
  {
    var node := Entry;
    var i := 0;
    s, turns := InitialGraphState(seed), 0;
    while node != EndNode && !(node == SelectNode && i == |script|)
      invariant 0 <= i <= |script|
      invariant NeedsTurn(node) ==> i < |script|
      invariant Exec(node, s, agents, script[i..], limits).0 == Exec(Entry, InitialGraphState(seed), agents, script, limits).0
      invariant Exec(node, s, agents, script[i..], limits).1 + turns
                == Exec(Entry, InitialGraphState(seed), agents, script, limits).1
      decreases |script| - i, Rank(node)
    {
      var step := NodeStep(node, s, agents, script[i], limits);
      var current := node;
      s := Apply(s, step);
      node := Next(current, s);
      if current == RespondNode {
        turns := turns + 1;
      }
      if node == SelectNode {
        assert script[i..][1..] == script[i + 1..];
        i := i + 1;
      }
    }
    RunFromInitial(seed, agents, script, limits);
  }
}
