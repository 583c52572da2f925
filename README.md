# Narrative orchestration engine — Dafny model

This project models the orchestration layer of a multi-agent story simulator.
Character agents and a director agent take turns, driven by a language model,
until a turn-taking state machine decides the scene is over. Every language-model
reply is an opaque input that has already been parsed.

- `wrappers.dfy` — `Option`, standing for Python's `None`.
- `schemas.dfy` (module `Schemas`) — the records `DialogueTurn`, `Action`,
  `CharacterMemory`, `CharacterProfile` and `StoryState`. It also has the profile
  constructor, which builds a memory from the profile's own fields only when none is given.
- `story_state.dfy` (module `StoryStates`) — the class `StoryStateManager`. It holds
  `var state: StoryState`, and its mutators reassign that state.
  - `AddTurn`, `AddAction` and `UpdateCharacterMemory` say in full what the new state is.
  - `AddAction` fans observations out in a loop over the profile names.
  - The read-only queries are class functions: `ShouldEndStory`, `GetActionCount`
    and `GetContextForCharacter`. The context is modelled as the records it selects.
- `director_agent.dfy` (module `Director`) — the director's decision rules as pure
  functions of a parsed reply. `None` means the reply did not parse as a JSON object.
  Each key is `Absent`, `Null` or `Given(value)`.
- `narrative_graph.dfy` (module `NarrativeGraph`) — the graph.
  - Each node is a function returning a `Patch`, the partial update the runtime merges into the state.
  - `Next` is the edge table of the compiled graph.
  - `Exec` is the graph run node by node, as a specification function.
  - `Run` is the driver loop, proved equal to `Exec`.
  - The lemmas prove, by induction on `Exec`: the turn counting, the consecutive
    turn numbering, the fuel bound, the conclusion gates, and that there is no
    max-turn ceiling.

Inputs that come from outside are parameters:
- the delegate's replies, as one `DelegateTurn` per cycle (speaker reply, character text, conclusion reply);
- `min_turns`, `max_turns` and `min_actions`, as `Director.Limits`;
- the manager's `max_turns`, as a constructor argument.

Behaviour of the code worth noting:
- `check_conclusion` does not force an ending at `max_turns`. At or past it, every
  reply that does not request an end, and every reply that does not parse, continues
  the story (`Director.NoCeilingAtMaxTurns`). The graph never calls `force_conclude`
  or `should_end_story`, so the graph's own code sets no turn ceiling
  (`NarrativeGraph.NoMaxTurnCeiling`). The model's driver is bounded by fuel, the
  length of the delegate script.
- `StoryStateManager.__init__` does not pass a roster entry's `secret` to
  `CharacterProfile`. Managed profiles therefore have an empty secret and no
  `SECRET:` fact (`StoryStates.ProfileOf`, `StoryStates.InitialManagedStateShape`).
- The candidate speakers are all registered agents. They are not filtered by presence.
- `max_consecutive_same_character` only goes into the prompt. Nothing enforces it.
- The graph records no actions. Its action count is therefore 0 throughout. With
  `min_actions >= 1`, it can conclude only at or past `max_turns` (`NarrativeGraph.RunFromInitial`).

Discrepancies inside the code, modelled on validated names instead of reproducing the crash:
- `_director_select_node` stores the `(speaker, narration)` tuple returned by
  `select_next_speaker` as `next_speaker`, and writes that tuple into the note.
  The model stores the validated speaker name and drops the narration. In the
  source, the respond step then falls back to the first character, because a
  tuple is never a registered name.
- `narrative_graph.py` imports `get_character_context`, which `story_state.py` does not define.
- `StoryConfig` has no `min_actions`, although `check_conclusion` reads one. It is a parameter here.
- `check_conclusion` returns the delegate's narration even when `should_end` is false.
  The graph stores `str(reason)`, so a missing narration becomes the text `"None"`
  (`NarrativeGraph.PyStr`).

## Model

| member | source | states |
|---|---|---|
| `Schemas.NewProfile` | src/schemas.py:31-48 | an explicit memory is kept; a missing one is seeded with the profile's own name, copies of its initial inventory and goals, no observations or perceptions, and the fact `SECRET: …` exactly when the secret is non-empty |
| `Schemas.NewStoryState` | src/schemas.py:50-62 | a new state has turn 0, is not concluded, has no next speaker and no conclusion reason, and has empty histories, events, narration and notes |
| `StoryStates.ProfileOf` | src/story_state.py:12-17 | a managed profile is seeded from its roster entry: its memory is named after it, has the entry's inventory and goals (empty when absent), and no secret or facts |
| `StoryStates.RosterProfiles` | src/story_state.py:11-18 | the profile dictionary built entry by entry, a later entry with the same name replacing an earlier one; its properties are stated by `RosterProfilesKeyed` |
| `StoryStates.InitialWorldState` | src/story_state.py:19-25 | the initial world state holds exactly the keys location, time, traffic_cleared, accident_resolved and characters_present; both flags are false; a name is listed present iff it is a roster name |
| `StoryStates.RosterNames` | src/story_state.py:24 | the present list has one name per roster entry, in roster order |
| `StoryStates.RosterProfilesKeyed` | src/story_state.py:11-18 | the profile dictionary is keyed by exactly the roster names; each profile's name and memory name are its key; a later entry with the same name wins |
| `StoryStates.InitialManagedStateShape` | src/story_state.py:7-26 | initially `characters_present` lists the roster names in order; profiles are keyed by name, with their own name in their memory and no facts; turn 0; empty histories |
| `StoryStates.StoryStateManager.constructor` | src/story_state.py:7-26 | the manager starts from the initial managed state for the seed and roster, and `Valid()` holds: every profile is stored under its own name, which its memory also carries, and the turns are numbered 1..n with the counter equal to n |
| `StoryStates.IsSubstring` | src/story_state.py:68 | Python's `needle in hay` on strings holds iff the needle occurs in the hay at some index |
| `StoryStates.ListedPresent` | src/story_state.py:68 | a name is present iff `characters_present` is a list holding it, or a string in which it occurs; a missing key or a boolean gives false |
| `StoryStates.RecordObservation` | src/story_state.py:39-42 | a known character's memory gains exactly one observation at its end; every other profile, and every other part of that memory, is unchanged; an unknown name changes nothing |
| `StoryStates.StoryStateManager.AddTurn` | src/story_state.py:28-42 | one turn numbered `current_turn + 1` is appended; the counter rises by exactly one; the speaker, if known, records `I said: …`; actions and world state are unchanged; `Valid()` is preserved |
| `StoryStates.StoryStateManager.AddAction` | src/story_state.py:44-70 | one action stamped with the unchanged current turn is appended; the world state becomes the old one overridden by the effects (untouched when they are empty); dialogue and counter are unchanged; the observations are fanned out; the action count rises by exactly one; `Valid()` is preserved |
| `StoryStates.WitnessAction` | src/story_state.py:66-70 | the loop over every profile gives each character other than the actor that is listed present one witness observation, and leaves the rest unchanged |
| `StoryStates.ActionObservations` | src/story_state.py:61-70 | in add_action, a known actor gains one `I performed action: …`; each other character listed present after the merge gains one `… performed action: …`; absent characters are unchanged; nothing else in any memory changes |
| `StoryStates.StoryStateManager.UpdateCharacterMemory` | src/story_state.py:72-85 | an unknown name is a no-op; otherwise only that character's memory changes, to the patched memory; `Valid()` is preserved |
| `StoryStates.PatchedMemory` | src/story_state.py:78-85 | an observation or fact is appended only when supplied and non-empty; the perceptions are merged with the new values winning; name, inventory and goals are unchanged |
| `StoryStates.StoryStateManager.ShouldEndStory` | src/story_state.py:162-168 | `(true, "Max turns reached")` at or past max turns; otherwise it ends iff concluded, with the stored reason or the default; `(false, "")` otherwise; an ending always has a non-empty reason |
| `StoryStates.StoryStateManager.GetActionCount` | src/story_state.py:170-172 | the number of actions recorded; each `AddAction` raises it by exactly one |
| `StoryStates.StoryStateManager.GetContextForCharacter` | src/story_state.py:87-115 | nothing for an unknown character; otherwise its own inventory and goals, its last 5 facts and observations, and the last 5 actions and last 10 turns (each exactly the last min(n, length) records) |
| `StoryStates.Tail` | src/story_state.py:96-103 | a Python `[-n:]` slice for n ≥ 1 (the source uses 5 and 10): the last min(n, length) elements |
| `Director.Get` | src/agents/director_agent.py:67-68 | `data.get(key)` is a value exactly when the key holds one; a missing or null key gives None |
| `Director.Requested` | src/agents/director_agent.py:97 | `data.get("should_end", False)`: a missing, null or false key does not request an end |
| `Director.SelectNextSpeaker` | src/agents/director_agent.py:64-77 | a valid named speaker is returned with the parsed narration; an invalid or missing one falls back to the first candidate with the parsed narration; a parse failure gives the first candidate with `""`; the speaker is always a candidate; no candidates gives no result, because the source raises |
| `Director.CheckConclusion` | src/agents/director_agent.py:94-110 | ends iff the reply parses and asks to end, `current_turn >= min_turns`, and `action_count >= min_actions` or `current_turn >= max_turns`; a blocked request gives `(false, None)`; otherwise the delegate's decision and narration pass through; a parse failure or missing key does not end |
| `Director.ForceConclude` | src/agents/director_agent.py:133-139 | always ends; the default closing narration is used for a missing key or a parse failure; a given narration passes through |
| `Director.NoCeilingAtMaxTurns` | src/agents/director_agent.py:99-110 | at or past max turns, every reply that does not request an end (should_end missing, null or false, any narration) and every unparseable reply leaves the story going |
| `NarrativeGraph.DistinctNames` | src/graph/narrative_graph.py:13 | the agent dictionary's keys: the same names, no duplicates, the first agent first |
| `NarrativeGraph.SelectOverDistinctNames` | src/graph/narrative_graph.py:48-49 | offering the dictionary's keys gives the same choice as offering the raw agent list |
| `NarrativeGraph.DirectorSelectStep` | src/graph/narrative_graph.py:46-55 | next_speaker becomes the director's choice over the agents, `SelectNextSpeaker(reply, agents)`, which is always a registered name; exactly one note `Selected: {speaker}` is appended after the earlier notes, which are kept; nothing else changes |
| `NarrativeGraph.ResolveSpeaker` | src/graph/narrative_graph.py:59-63 | a None, empty or unregistered next_speaker resolves to the first agent, a registered one to itself; the result is always registered |
| `NarrativeGraph.CharacterRespondStep` | src/graph/narrative_graph.py:57-82 | exactly one turn, numbered `current_turn + 1` and spoken by the resolved speaker, is appended after the kept history; the counter becomes `current_turn + 1`; nothing else changes |
| `NarrativeGraph.CheckConclusionStep` | src/graph/narrative_graph.py:84-93 | a decision to end sets `is_concluded` and sets the reason to `str(narration)`; otherwise it sets `is_concluded = false` and leaves the reason untouched |
| `NarrativeGraph.PyStr` | src/graph/narrative_graph.py:91 | `str(reason)`: a narration is kept as it is, a missing one becomes the text `"None"` |
| `NarrativeGraph.ConcludeStep` | src/graph/narrative_graph.py:95-97 | only sets `is_concluded = true` |
| `NarrativeGraph.ConcludeIdempotent` | src/graph/narrative_graph.py:95-97 | running conclude again on its result changes nothing |
| `NarrativeGraph.RouteConclusion` | src/graph/narrative_graph.py:99-102 | routes to conclude iff `is_concluded`, else to continue |
| `NarrativeGraph.Next` | src/graph/narrative_graph.py:17-44 | the only edge back to director_select is the continue edge from check_conclusion, taken iff not concluded; every other edge moves one step forward: select → respond → check → conclude → END |
| `NarrativeGraph.Exec` | src/graph/narrative_graph.py:17-44 | the compiled graph run node by node from a node and state until END or until the delegate's cycles are used up, giving the final state and the number of character turns; its properties are stated by the `Exec…` lemmas below |
| `NarrativeGraph.ExecCountsTurns` | src/graph/narrative_graph.py:57-82 | over any run, counter and dialogue length both grow by the number of character turns taken; earlier turns are kept; actions, profiles and world state are untouched |
| `NarrativeGraph.ExecKeepsTurnsNumbered` | src/graph/narrative_graph.py:73-82 | a run keeps the turns numbered 1, 2, … and the counter equal to their number |
| `NarrativeGraph.ExecFuel` | src/graph/narrative_graph.py:17-44 | at most one character turn per delegate cycle; stopping before the cycles run out means the story concluded |
| `NarrativeGraph.ExecKeepsGates` | src/graph/narrative_graph.py:84-93 | a run concludes only with `current_turn >= min_turns`, and with enough actions or `current_turn >= max_turns` |
| `NarrativeGraph.ExecWhileDeclined` | src/graph/narrative_graph.py:33-40 | if the delegate never asks to end, every cycle takes a turn and the story never concludes |
| `NarrativeGraph.RunFromInitial` | src/graph/narrative_graph.py:104-114 | from the initial state, after n turns the counter, n and the dialogue length are equal; turns are numbered 1..n; n ≤ cycles; stopping early means concluded; with `min_actions >= 1`, an ending needs `current_turn >= max_turns` |
| `NarrativeGraph.NoMaxTurnCeiling` | src/graph/narrative_graph.py:17-44 | a delegate that never asks to end keeps the story going for every cycle given, past any max turns |
| `NarrativeGraph.Run` | src/graph/narrative_graph.py:104-114 | the node-by-node driver loop computes `Exec` from the initial state; its counter equals the turns taken and the dialogue length |

## Left out

- Every language-model call: the prompts, `generate_response`, `CharacterAgent.respond`
  (network, async), and its `"..."` placeholder. Replies are parameters.
- JSON parsing and fence stripping. A reply is `Option` of a record. A field of some
  other JSON type than the expected one is not modelled, and `should_end` is taken as
  a boolean, not by its truthiness.
- The text of every context and prompt. `get_context_for_character` is modelled as
  the records it selects; the seed description, location and present list it prints
  are left out. `get_context_for_director` is left out because it only formats all of
  the histories and notes as text.
- Prompt templates, `main.py` (file loading, printing, output), `config.py` (defaults) and
  `base_agent.py`. These are I/O or constants.
- Timestamps (`datetime.now`), the langgraph runtime and async scheduling.
- The action-effect resolver (per-type effects, item matching for GIVE). It is not part
  of this model, because no file of the source implements it.
- StoryStates.StoryStateManager.AddAction: requires `characters_present` not to be a
  boolean when another profile than the actor exists, because the source raises TypeError there.
- NarrativeGraph.Run: the graph's own code sets no ceiling on the number of cycles.
  The model stops before a new cycle once the delegate script is used up, and claims
  no termination of its own.
- The graph runtime's step limit. `ainvoke` is called without a configuration, so the
  runtime's default recursion limit applies and stops a long run with an error. That
  limit belongs to the graph library, which is not part of this model.
- NarrativeGraph.DirectorSelectStep: requires at least one agent. With none, the source
  raises IndexError in `select_next_speaker`. The graph's other nodes and `Run` require the same.
- NarrativeGraph.DirectorSelectStep: stores the validated name rather than the
  `(speaker, narration)` tuple the source stores, and drops the narration.
- World-state values other than booleans, strings and lists of names. Aliasing of memory
  objects shared between profiles, which the value model cannot express.
- The `events` log and `story_narration`. They are fields of the state, but no modelled
  operation writes to them.
