/**
 * StoryStateManager: the mutable holder of one story's state. Its mutators
 * append to the histories, advance or stamp the turn counter, merge action
 * effects into the world state and fan observations out to the characters.
 */
module StoryStates {
  import opened Wrappers
  import opened Schemas

  const CharactersPresentKey: string := "characters_present"

  /** One entry of the character roster the manager is created from. */
  datatype CharacterConfig = CharacterConfig(
    name: string,
    description: string,
    secret: Option<string>,
    initialInventory: Option<seq<string>>,
    initialGoals: Option<seq<string>>)

  /** The profile the manager builds for one roster entry; the entry's secret is not passed on. */
  function ProfileOf(c: CharacterConfig): (p: CharacterProfile)
    ensures p.name == c.name && p.description == c.description && SeededFrom(p)
    ensures p.secret == "" && p.memory.importantFacts == []
    ensures p.memory.inventory == c.initialInventory.GetOr([]) && p.memory.goals == c.initialGoals.GetOr([])
  {
    NewProfile(c.name, c.description, "", None, c.initialInventory.GetOr([]), c.initialGoals.GetOr([]))
  }

  function RosterNames(roster: seq<CharacterConfig>): (names: seq<string>)
    ensures |names| == |roster|
    ensures forall i :: 0 <= i < |roster| ==> names[i] == roster[i].name
  {
    seq(|roster|, i requires 0 <= i < |roster| => roster[i].name)
  }

  /** The profile dictionary built entry by entry: a later entry with the same name replaces an earlier one. */
  function RosterProfiles(roster: seq<CharacterConfig>): map<string, CharacterProfile>
    decreases |roster|
  {
    if roster == [] then map[]
    else RosterProfiles(roster[..|roster| - 1])[roster[|roster| - 1].name := ProfileOf(roster[|roster| - 1])]
  }

  /** Every profile is stored under its own name, which is also the name its memory carries. */
  ghost predicate ProfilesKeyed(profiles: map<string, CharacterProfile>) {
    forall n :: n in profiles ==> profiles[n].name == n && profiles[n].memory.characterName == n
  }

  /** Replacing one profile's memory by one that carries the same name keeps the profiles keyed. */
  lemma KeyedAfterNewMemory(profiles: map<string, CharacterProfile>, name: string, memory: CharacterMemory)
    requires ProfilesKeyed(profiles) && name in profiles
    requires memory.characterName == profiles[name].memory.characterName
    ensures ProfilesKeyed(profiles[name := profiles[name].(memory := memory)])
  {
  }

  /** No roster entry after index i has the name of entry i. */
  predicate LastWithItsName(roster: seq<CharacterConfig>, i: int)
    requires 0 <= i < |roster|
  {
    forall j :: i < j < |roster| ==> roster[j].name != roster[i].name
  }

  /**
   * The profile dictionary is keyed by exactly the roster's names; each
   * profile carries its key as its name and the memory seeded from its own
   * fields (no secret), and is built from the last roster entry with that name.
   */
  lemma {:induction false} RosterProfilesKeyed(roster: seq<CharacterConfig>)
    ensures forall n :: n in RosterProfiles(roster) <==> n in RosterNames(roster)
    ensures forall n :: n in RosterProfiles(roster) ==>
              && RosterProfiles(roster)[n].name == n && RosterProfiles(roster)[n].secret == ""
              && SeededFrom(RosterProfiles(roster)[n])
    ensures forall i :: 0 <= i < |roster| && LastWithItsName(roster, i) ==>
              RosterProfiles(roster)[roster[i].name] == ProfileOf(roster[i])
    decreases |roster|
  {
    if roster != [] {
      var init := roster[..|roster| - 1];
      var last := roster[|roster| - 1];
      RosterProfilesKeyed(init);
      assert RosterNames(roster) == RosterNames(init) + [last.name];
      forall i | 0 <= i < |roster| && LastWithItsName(roster, i)
        ensures RosterProfiles(roster)[roster[i].name] == ProfileOf(roster[i])
      {
        if i < |init| {
          assert init[i] == roster[i];
          assert LastWithItsName(init, i) by {
            forall j | i < j < |init| ensures init[j].name != init[i].name {
              assert init[j] == roster[j];
            }
          }
          assert last.name != roster[i].name;
        }
      }
    }
  }

  /** The world state the manager starts from: the scene's location and time, and every roster name present. */
  function InitialWorldState(roster: seq<CharacterConfig>): (ws: map<string, Value>)
    ensures ws.Keys == {"location", "time", "traffic_cleared", "accident_resolved", CharactersPresentKey}
    ensures ws["traffic_cleared"] == Flag(false) && ws["accident_resolved"] == Flag(false)
    ensures ws[CharactersPresentKey] == Names(RosterNames(roster)) && PresenceComparable(ws)
    ensures forall n :: ListedPresent(ws, n) <==> n in RosterNames(roster)
  {
    map[
      "location" := Text("Shahrah-e-Faisal near Karachi Airport"),
      "time" := Text("late afternoon"),
      "traffic_cleared" := Flag(false),
      "accident_resolved" := Flag(false),
      CharactersPresentKey := Names(RosterNames(roster))
    ]
  }

  function InitialManagedState(seed: map<string, string>, roster: seq<CharacterConfig>): StoryState {
    NewStoryState(seed, RosterProfiles(roster), InitialWorldState(roster))
  }

  /**
   * The manager's initial state: the roster names, in roster order, are
   * present; each profile is keyed by its own name and seeded from its own
   * fields; no turn has been taken.
   */
  lemma InitialManagedStateShape(seed: map<string, string>, roster: seq<CharacterConfig>)
    ensures var s := InitialManagedState(seed, roster);
      && CharactersPresentKey in s.worldState
      && s.worldState[CharactersPresentKey].Names?
      && |s.worldState[CharactersPresentKey].names| == |roster|
      && (forall i :: 0 <= i < |roster| ==> s.worldState[CharactersPresentKey].names[i] == roster[i].name)
      && (forall n :: n in s.characterProfiles <==> n in RosterNames(roster))
      && (forall n :: n in s.characterProfiles ==>
            s.characterProfiles[n].name == n && s.characterProfiles[n].memory.characterName == n
            && s.characterProfiles[n].memory.importantFacts == [])
      && s.currentTurn == 0 && s.dialogueHistory == [] && s.actionHistory == [] && !s.isConcluded
  {
    RosterProfilesKeyed(roster);
    var ws := InitialWorldState(roster);
    assert CharactersPresentKey in ws && ws[CharactersPresentKey] == Names(RosterNames(roster));
  }

  /** needle occurs in hay starting at index i. */
  predicate OccursAt(needle: string, hay: string, i: int) {
    0 <= i && i + |needle| <= |hay| && hay[i..i + |needle|] == needle
  }

  /** Python's `needle in hay` on strings: needle occurs in hay at some index. */
  predicate IsSubstring(needle: string, hay: string)
    ensures IsSubstring(needle, hay) <==> exists i :: OccursAt(needle, hay, i)
    decreases |hay|
  {
    assert OccursAt(needle, hay, 0) <==> needle <= hay;
    assert hay != [] ==> forall i :: OccursAt(needle, hay[1..], i) ==> OccursAt(needle, hay, i + 1);
    assert hay != [] ==> forall i :: i > 0 && OccursAt(needle, hay, i) ==> OccursAt(needle, hay[1..], i - 1);
    needle <= hay || (hay != [] && IsSubstring(needle, hay[1..]))
  }

  /** The presence test can be evaluated: the source raises TypeError on a boolean `characters_present`. */
  predicate PresenceComparable(ws: map<string, Value>) {
    CharactersPresentKey in ws ==> !ws[CharactersPresentKey].Flag?
  }

  /**
   * `name in world_state.get("characters_present", [])`: membership in a
   * list, a substring test on a string (a boolean is excluded by
   * PresenceComparable).
   */
  predicate ListedPresent(ws: map<string, Value>, name: string)
    ensures ListedPresent(ws, name) <==>
              && CharactersPresentKey in ws
              && ((ws[CharactersPresentKey].Names? && name in ws[CharactersPresentKey].names)
                  || (ws[CharactersPresentKey].Text? && exists i :: OccursAt(name, ws[CharactersPresentKey].text, i)))
  {
    && CharactersPresentKey in ws
    && match ws[CharactersPresentKey]
       case Names(names) => name in names
       case Text(text) => IsSubstring(name, text)
       case Flag(_) => false
  }

  function SaidObservation(dialogue: string): string { "I said: " + dialogue }

  function PerformedObservation(description: string): string { "I performed action: " + description }

  function WitnessObservation(actor: string, description: string): string {
    actor + " performed action: " + description
  }

  function WithObservation(p: CharacterProfile, observation: string): CharacterProfile {
    p.(memory := p.memory.(observations := p.memory.observations + [observation]))
  }

  /**
   * The profiles after `name`, when it is a known profile, records an
   * observation: exactly one observation is appended to that memory, and
   * every other profile and every other part of that memory is unchanged.
   */
  function RecordObservation(profiles: map<string, CharacterProfile>, name: string, observation: string)
    : (r: map<string, CharacterProfile>)
    ensures r.Keys == profiles.Keys
    ensures forall n :: n in profiles && n != name ==> r[n] == profiles[n]
    ensures name in profiles ==>
              && r[name].memory.observations == profiles[name].memory.observations + [observation]
              && r[name].memory == profiles[name].memory.(observations := r[name].memory.observations)
              && r[name] == profiles[name].(memory := r[name].memory)
    ensures name !in profiles ==> r == profiles
  {
    if name in profiles then profiles[name := WithObservation(profiles[name], observation)] else profiles
  }

  /** The profiles after every character other than the actor who is listed present witnesses the action. */
  function ActionWitnessed(profiles: map<string, CharacterProfile>, actor: string, description: string,
                           ws: map<string, Value>): map<string, CharacterProfile>
  {
    map n | n in profiles ::
      if n != actor && ListedPresent(ws, n)
      then WithObservation(profiles[n], WitnessObservation(actor, description))
      else profiles[n]
  }

  /**
   * What add_action does to the profiles: the actor, when known, records one
   * self-observation; every other character listed present records one
   * witness observation; nobody else changes, and no other part of any
   * memory changes.
   */
  lemma ActionObservations(profiles: map<string, CharacterProfile>, actor: string, description: string,
                           ws: map<string, Value>)
    ensures var after := ActionWitnessed(RecordObservation(profiles, actor, PerformedObservation(description)),
                                         actor, description, ws);
      && after.Keys == profiles.Keys
      && (forall n :: n in profiles ==>
            after[n].memory == profiles[n].memory.(observations := after[n].memory.observations)
            && after[n] == profiles[n].(memory := after[n].memory))
      && (actor in profiles ==>
            after[actor].memory.observations == profiles[actor].memory.observations + [PerformedObservation(description)])
      && (forall n :: n in profiles && n != actor && ListedPresent(ws, n) ==>
            after[n].memory.observations
            == profiles[n].memory.observations + [WitnessObservation(actor, description)])
      && (forall n :: n in profiles && n != actor && !ListedPresent(ws, n) ==> after[n] == profiles[n])
  {
  }

  /** The loop of add_action over every profile: each character other than the actor and listed present witnesses it. */
  method WitnessAction(profiles: map<string, CharacterProfile>, actor: string, description: string,
                       world: map<string, Value>) returns (r: map<string, CharacterProfile>)
    ensures r == ActionWitnessed(profiles, actor, description, world)
  {
    r := profiles;
    var pending := profiles.Keys;
    while pending != {}
      invariant pending <= profiles.Keys && r.Keys == profiles.Keys
      invariant forall n :: n in pending ==> r[n] == profiles[n]
      invariant forall n :: n in profiles && n !in pending ==>
                  r[n] == ActionWitnessed(profiles, actor, description, world)[n]
      decreases pending
    {
      var n :| n in pending;
      if n != actor && ListedPresent(world, n) {
        r := r[n := WithObservation(r[n], WitnessObservation(actor, description))];
      }
      pending := pending - {n};
    }
  }

  /** The observations and facts update_character_memory appends: a value that is None or empty appends nothing. */
  function Supplied(entry: Option<string>): seq<string> {
    if entry.Some? && entry.value != "" then [entry.value] else []
  }

  /**
   * The memory after update_character_memory: a supplied observation and
   * fact are appended, the perceptions are merged with the new values
   * winning, and the name, inventory and goals are unchanged.
   */
  function PatchedMemory(m: CharacterMemory, observation: Option<string>, fact: Option<string>,
                         perception: Option<map<string, string>>): (r: CharacterMemory)
    ensures r.characterName == m.characterName && r.inventory == m.inventory && r.goals == m.goals
    ensures r.observations == m.observations + Supplied(observation)
    ensures r.importantFacts == m.importantFacts + Supplied(fact)
    ensures r.perceptions.Keys == m.perceptions.Keys + perception.GetOr(map[]).Keys
    ensures forall k :: k in r.perceptions ==>
              r.perceptions[k] == if k in perception.GetOr(map[]) then perception.value[k] else m.perceptions[k]
  {
    m.(observations := m.observations + Supplied(observation),
       importantFacts := m.importantFacts + Supplied(fact),
       perceptions := m.perceptions + perception.GetOr(map[]))
  }

  /** What a character context selects: the character's own memory and the recent shared history. */
  datatype CharacterContext = CharacterContext(
    inventory: seq<string>,
    goals: seq<string>,
    recentFacts: seq<string>,
    recentObservations: seq<string>,
    recentActions: seq<Action>,
    recentTurns: seq<DialogueTurn>)

  /** t is the last min(n, |s|) elements of s. */
  predicate IsTail<T(==)>(t: seq<T>, s: seq<T>, n: nat) {
    |t| == (if |s| < n then |s| else n) && t == s[|s| - |t|..]
  }

  /** Python's `s[-n:]` for n >= 1: the last n elements, or all of s when it is shorter. */
  function Tail<T(==)>(s: seq<T>, n: nat): (r: seq<T>)
    requires n > 0
    ensures IsTail(r, s, n)
  {
    if |s| <= n then s else s[|s| - n..]
  }

  class StoryStateManager {
    const maxTurns: int
    var state: StoryState

    /**
     * The manager's invariant: every profile is stored under its own name,
     * and the turns are numbered 1, 2, ... with the counter equal to their number.
     */
    ghost predicate Valid()
      reads this
    {
      ProfilesKeyed(state.characterProfiles) && TurnsNumbered(state)
    }

    constructor (seed: map<string, string>, roster: seq<CharacterConfig>, maxTurns: int)
      ensures this.maxTurns == maxTurns
      ensures state == InitialManagedState(seed, roster)
      ensures Valid()
    {
      this.maxTurns := maxTurns;
      state := InitialManagedState(seed, roster);
      InitialManagedStateShape(seed, roster);
    }

    /** add_turn: one turn numbered after the current turn is appended, and the counter advances by one. */
    method AddTurn(speaker: string, dialogue: string, metadata: map<string, Value>)
      requires Valid()
      modifies this
      ensures Valid()
      ensures state.dialogueHistory
              == old(state.dialogueHistory) + [DialogueTurn(old(state.currentTurn) + 1, speaker, dialogue, metadata)]
      ensures state.currentTurn == old(state.currentTurn) + 1
      ensures state.characterProfiles
              == RecordObservation(old(state.characterProfiles), speaker, SaidObservation(dialogue))
      ensures state == old(state).(dialogueHistory := state.dialogueHistory, currentTurn := state.currentTurn,
                                    characterProfiles := state.characterProfiles)
    {
      var turn := DialogueTurn(state.currentTurn + 1, speaker, dialogue, metadata);
      state := state.(dialogueHistory := state.dialogueHistory + [turn]);
      state := state.(currentTurn := state.currentTurn + 1);
      if speaker in state.characterProfiles {
        var profile := state.characterProfiles[speaker];
        state := state.(characterProfiles := state.characterProfiles[speaker := WithObservation(profile, SaidObservation(dialogue))]);
      }
    }

    /**
     * add_action: one action stamped with the current turn is appended, the
     * effects are merged into the world state, the actor records performing
     * it, and every other character listed present in the merged world state
     * records witnessing it.
     */
    method AddAction(actor: string, actionType: string, target: Option<string>, description: string,
                     effects: map<string, Value>)
      requires Valid()
      requires state.characterProfiles.Keys - {actor} != {} ==> PresenceComparable(state.worldState + effects)
      modifies this
      ensures Valid()
      ensures GetActionCount() == old(GetActionCount()) + 1
      ensures state.actionHistory
              == old(state.actionHistory) + [Action(old(state.currentTurn), actor, actionType, target, description, effects)]
      ensures state.worldState == old(state.worldState) + effects
      ensures effects == map[] ==> state.worldState == old(state.worldState)
      ensures state.characterProfiles
              == ActionWitnessed(RecordObservation(old(state.characterProfiles), actor, PerformedObservation(description)),
                                 actor, description, old(state.worldState) + effects)
      ensures state == old(state).(actionHistory := state.actionHistory, worldState := state.worldState,
                                    characterProfiles := state.characterProfiles)
    {
      var action := Action(state.currentTurn, actor, actionType, target, description, effects);
      var world := state.worldState;
      if effects != map[] {
        world := world + effects;
      }
      assert world == state.worldState + effects;
      var profiles := RecordObservation(state.characterProfiles, actor, PerformedObservation(description));
      profiles := WitnessAction(profiles, actor, description, world);
      assert ProfilesKeyed(profiles);
      state := state.(actionHistory := state.actionHistory + [action], worldState := world,
                      characterProfiles := profiles);
    }

    /**
     * update_character_memory: an unknown name changes nothing; otherwise a
     * supplied observation and fact are appended and the perceptions are
     * merged, later values winning.
     */
    method UpdateCharacterMemory(name: string, observation: Option<string>, fact: Option<string>,
                                 perception: Option<map<string, string>>)
      requires Valid()
      modifies this
      ensures Valid()
      ensures name !in old(state.characterProfiles) ==> state == old(state)
      ensures name in old(state.characterProfiles) ==>
                state == old(state).(characterProfiles := old(state.characterProfiles)[name :=
                  old(state.characterProfiles[name]).(memory :=
                    PatchedMemory(old(state.characterProfiles[name].memory), observation, fact, perception))])
    {
      if name !in state.characterProfiles {
        return;
      }
      var profile := state.characterProfiles[name];
      var memory := profile.memory;
      if observation.Some? && observation.value != "" {
        memory := memory.(observations := memory.observations + [observation.value]);
      }
      if fact.Some? && fact.value != "" {
        memory := memory.(importantFacts := memory.importantFacts + [fact.value]);
      }
      if perception.Some? && perception.value != map[] {
        memory := memory.(perceptions := memory.perceptions + perception.value);
      }
      assert memory == PatchedMemory(profile.memory, observation, fact, perception);
      var profiles := state.characterProfiles[name := profile.(memory := memory)];
      KeyedAfterNewMemory(state.characterProfiles, name, memory);
      assert ProfilesKeyed(profiles);
      assert TurnsNumbered(state.(characterProfiles := profiles));
      state := state.(characterProfiles := profiles);
    }

    /**
     * should_end_story: ends at or past maxTurns with "Max turns reached";
     * otherwise ends exactly when the story is concluded, with its reason or
     * a default; a story that ends always has a non-empty reason.
     */
    function ShouldEndStory(): (r: (bool, string))
      reads this
      ensures r.0 <==> state.currentTurn >= maxTurns || state.isConcluded
      ensures state.currentTurn >= maxTurns ==> r == (true, "Max turns reached")
      ensures (state.currentTurn < maxTurns && state.isConcluded && state.conclusionReason.Some?
               && state.conclusionReason.value != "") ==> r == (true, state.conclusionReason.value)
      ensures (state.currentTurn < maxTurns && state.isConcluded
               && (state.conclusionReason.None? || state.conclusionReason.value == ""))
              ==> r == (true, "Director concluded story")
      ensures !r.0 ==> r.1 == ""
      ensures r.0 ==> r.1 != ""
    {
      if state.currentTurn >= maxTurns then (true, "Max turns reached")
      else if state.isConcluded then
        (true, if state.conclusionReason.Some? && state.conclusionReason.value != "" then state.conclusionReason.value
               else "Director concluded story")
      else (false, "")
    }

    /** get_action_count: the number of actions recorded so far. */
    function GetActionCount(): (r: nat)
      reads this
      ensures r == |state.actionHistory|
    {
      |state.actionHistory|
    }

    /**
     * The records get_context_for_character selects: none for an unknown
     * character; otherwise that character's own inventory and goals, its
     * last 5 facts and observations, and the last 5 actions and 10 turns.
     * Nothing of another character's memory or secret is selected.
     */
    function GetContextForCharacter(name: string): (r: Option<CharacterContext>)
      reads this
      ensures r.None? <==> name !in state.characterProfiles
      ensures r.Some? ==>
                var m := state.characterProfiles[name].memory;
                && r.value.inventory == m.inventory && r.value.goals == m.goals
                && IsTail(r.value.recentFacts, m.importantFacts, 5)
                && IsTail(r.value.recentObservations, m.observations, 5)
                && IsTail(r.value.recentActions, state.actionHistory, 5)
                && IsTail(r.value.recentTurns, state.dialogueHistory, 10)
    {
      if name !in state.characterProfiles then None
      else
        var m := state.characterProfiles[name].memory;
        Some(CharacterContext(m.inventory, m.goals, Tail(m.importantFacts, 5), Tail(m.observations, 5),
                              Tail(state.actionHistory, 5), Tail(state.dialogueHistory, 10)))
    }
  }
}
