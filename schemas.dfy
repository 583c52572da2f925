/**
 * The records of the story data model: dialogue turns, actions, character
 * memories and profiles, and the aggregate story state.
 * Timestamps are not modelled.
 */
module Schemas {
  import opened Wrappers

  /** A value kept in the world state, an action's effects or a turn's metadata. */
  datatype Value = Flag(flag: bool) | Text(text: string) | Names(names: seq<string>)

  datatype DialogueTurn = DialogueTurn(
    turnNumber: int,
    speaker: string,
    dialogue: string,
    metadata: map<string, Value>)

  /** A non-verbal action performed by a character. */
  datatype Action = Action(
    turnNumber: int,
    actor: string,
    actionType: string,
    target: Option<string>,
    description: string,
    effects: map<string, Value>)

  /** The memory buffer of one character. */
  datatype CharacterMemory = CharacterMemory(
    characterName: string,
    observations: seq<string>,
    inventory: seq<string>,
    goals: seq<string>,
    perceptions: map<string, string>,
    importantFacts: seq<string>)

  datatype CharacterProfile = CharacterProfile(
    name: string,
    description: string,
    secret: string,
    memory: CharacterMemory,
    initialInventory: seq<string>,
    initialGoals: seq<string>)

  datatype StoryState = StoryState(
    seedStory: map<string, string>,
    currentTurn: int,
    storyNarration: seq<string>,
    dialogueHistory: seq<DialogueTurn>,
    actionHistory: seq<Action>,
    events: seq<map<string, Value>>,
    characterProfiles: map<string, CharacterProfile>,
    directorNotes: seq<string>,
    nextSpeaker: Option<string>,
    isConcluded: bool,
    conclusionReason: Option<string>,
    worldState: map<string, Value>)

  /** The fact a secret is remembered by: only a non-empty secret is seeded. */
  function SecretFacts(secret: string): seq<string> {
    if secret != "" then ["SECRET: " + secret] else []
  }

  /** p's memory is the one seeded from p's own name, initial inventory, initial goals and secret. */
  predicate SeededFrom(p: CharacterProfile) {
    && p.memory.characterName == p.name
    && p.memory.observations == []
    && p.memory.inventory == p.initialInventory
    && p.memory.goals == p.initialGoals
    && p.memory.perceptions == map[]
    && p.memory.importantFacts == SecretFacts(p.secret)
  }

  /**
   * The constructor of CharacterProfile: a memory given explicitly is kept,
   * and only a missing one is built from the profile's own fields.
   */
  function NewProfile(name: string, description: string, secret: string, memory: Option<CharacterMemory>,
                      initialInventory: seq<string>, initialGoals: seq<string>): (p: CharacterProfile)
    ensures p.name == name && p.description == description && p.secret == secret
    ensures p.initialInventory == initialInventory && p.initialGoals == initialGoals
    ensures memory.Some? ==> p.memory == memory.value
    ensures memory.None? ==> SeededFrom(p)
    ensures memory.None? ==> p.memory.characterName == name
    ensures memory.None? ==> (p.memory.importantFacts == [] <==> secret == "")
    ensures memory.None? && secret != "" ==> p.memory.importantFacts == ["SECRET: " + secret]
  {
    var seeded := if memory.Some? then memory.value
                  else CharacterMemory(name, [], initialInventory, initialGoals, map[], SecretFacts(secret));
    CharacterProfile(name, description, secret, seeded, initialInventory, initialGoals)
  }

  /** A story state as created, with every field the record gives a default left at that default. */
  function NewStoryState(seed: map<string, string>, profiles: map<string, CharacterProfile>,
                         worldState: map<string, Value>): (s: StoryState)
    ensures s.seedStory == seed && s.characterProfiles == profiles && s.worldState == worldState
    ensures s.currentTurn == 0 && !s.isConcluded && s.nextSpeaker == None && s.conclusionReason == None
    ensures s.dialogueHistory == [] && s.actionHistory == [] && s.events == []
    ensures s.storyNarration == [] && s.directorNotes == []
  {
    StoryState(seed, 0, [], [], [], [], profiles, [], None, false, None, worldState)
  }

  /** Dialogue turns are numbered 1, 2, ... in order and the counter equals their number. */
  ghost predicate TurnsNumbered(s: StoryState) {
    && s.currentTurn == |s.dialogueHistory|
    && forall k :: 0 <= k < |s.dialogueHistory| ==> s.dialogueHistory[k].turnNumber == k + 1
  }
}
