# D&D converter: the draft/critique graph and the schema registry

This project models two pieces of a tool that turns a free-text description
of a Dungeons & Dragons object into a structured stat block.

- **The schema registry** (`dnd_classes.py`, module `DndClasses` in
  `dnd_classes.dfy`). It covers:
  - the `DnDType` classifier model;
  - the four record models `DnDAny`, `DnDItem`, `DnDSpell` and `DnDEffect`;
  - the table `DND_MAP` from entity type to record model.

  Each model is a typed datatype and a row of the field table `Field`. The
  row gives each field's kind and says whether it is nullable. A field
  declared `Optional[X]` without a default must be present but may hold
  null.

  `Validate` is pydantic's `model_validate` on a JSON-like object. It reads
  the fields in declaration order, reports the first failing field, and
  ignores keys the model does not declare. `Dump` is `model_dump`.
  `Conforms` is the reference definition of a valid object. The lemmas
  prove:
  - validation succeeds exactly on conforming objects;
  - a failure names a violated field;
  - `Validate(Dump(r)) == r`;
  - `Dump(Validate(o))` is `o` restricted to the declared fields.

- **The bounded draft/critique workflow** (`agent_dnd_converter.py`, module
  `AgentDndConverter` in `agent_dnd_converter.dfy`).
  - The three node functions and `should_continue` are pure functions from an
    `AgentState` snapshot to a partial `Update`, or to a routing `Target`.
    A read of a missing key is a `KeyError`.
  - `Merge` is the runtime's merge. It overwrites every written key except
    `count`, which is summed.
  - The compiled graph's run is the class `Session`. Its fields are the state
    channels, and its method `Invoke` executes the nodes in a loop, merging
    each update in place.
  - The language-model answers are oracle parameters: the classifier's
    structured answer, the generator's structured answer at each
    generation, and the critique text at each reflection. Each structured
    answer is validated against its model, as the structured-output wrapper
    does, and a rejected answer aborts the run.
  - `Invoke` is proved against a closed form of the run:
    - it succeeds exactly under `RunSucceeds`;
    - otherwise it raises the first node failure, `RunError`;
    - on success it ends in `StateAfter(RunLength)` after executing
      `RunTrace(RunLength)`.

  The number of generations is
  `Generations(base, M) = max(1, M - base + 1)`. Here `base` is the input
  `revision_number`, or 1 when the input has none. The lemmas show:
  - the executed trace starts with `type_identifier` and then alternates
    `generate` and `reflect`, ending on `generate`;
  - `count` grows by one per executed node;
  - each node writes only its own keys;
  - the final draft conforms to `DND_MAP[dnd_type]`.

`wrappers.dfy` (module `Wrappers`) holds the `Option` and `Result` types
shared by both modules.

## Model

| member | source | states |
|---|---|---|
| DndClasses.ParseType | dnd_classes.py:4-5 | a string is accepted as an entity type exactly when it is one of the five `DnDType` literals, and the accepted value spells that string |
| DndClasses.ParseAbility | dnd_classes.py:16 | a string is accepted as an ability exactly when it is one of the six ability literals, and the result spells that string |
| DndClasses.ParseComponent | dnd_classes.py:28 | a string is accepted as a spell component exactly when it is Verbal, Somatic or Material |
| DndClasses.ParseSchool | dnd_classes.py:30 | a string is accepted as a magic school exactly when it is one of the five school literals |
| DndClasses.ValidateDnDType | dnd_classes.py:4-5 | the classifier's answer validates exactly when its `type` key holds one of the five literals; the result spells that literal; a failure names `type` |
| DndClasses.Lookup | dnd_classes.py:7-42 | reading a field succeeds exactly when the key is present, and otherwise reports "field required" for that key |
| DndClasses.ParseComponents | dnd_classes.py:28 | a list is accepted as `List[Literal['Verbal','Somatic','Material']]` exactly when every element is one of those strings, and re-encoding the result gives the list back |
| DndClasses.ParseStrings | dnd_classes.py:29 | a list is accepted as `List[str]` exactly when every element is a string, and re-encoding the result gives the list back |
| DndClasses.RequiredStr | dnd_classes.py:8 | a `str` field is read exactly when it is present and a non-null string; the value read is the one stored; a failure names the field |
| DndClasses.RequiredInt | dnd_classes.py:31 | an `int` field is read exactly when it is present and a non-null integer; a failure names the field |
| DndClasses.NullableStr | dnd_classes.py:13 | an `Optional[str]` field is read exactly when it is present and holds null or a string; a missing key is an error, not None |
| DndClasses.NullableInt | dnd_classes.py:14 | an `Optional[int]` field is read exactly when it is present and holds null or an integer |
| DndClasses.NullableAbility | dnd_classes.py:16 | an `Optional[Literal[abilities]]` field is read exactly when it is present and holds null or one of the six ability names |
| DndClasses.RequiredSchool | dnd_classes.py:30 | `magic_school` is read exactly when it is present and holds one of the five school names |
| DndClasses.RequiredComponents | dnd_classes.py:28 | `components` is read exactly when it is present and is a list of component names |
| DndClasses.NullableStrings | dnd_classes.py:29 | `materials` is read exactly when it is present and holds null or a list of strings |
| DndClasses.KeyNamesDistinct | dnd_classes.py:7-42 | the sixteen field names are pairwise distinct, so each key stands for exactly one declared field name |
| DndClasses.Field | dnd_classes.py:7-42 | the declaration table: for each model and field name, the field's kind and whether it is `Optional`; its content is stated by AnyFields, ItemFields, SpellFields and EffectFields |
| DndClasses.Conforms | dnd_classes.py:7-42 | the reference definition of a valid object: every declared field is present, null only where nullable, and otherwise of its kind; ValidateConforms proves `Validate` accepts exactly these objects |
| DndClasses.ValidateAny | dnd_classes.py:7-9 | `DnDAny.model_validate`, reading `name` then `description`; AnyConforms, AnyFailure and AnyDump state its properties |
| DndClasses.ValidateItem | dnd_classes.py:11-20 | `DnDItem.model_validate`, reading the nine fields in declaration order; ItemConforms, ItemFailure and ItemDump state its properties |
| DndClasses.ValidateSpell | dnd_classes.py:22-33 | `DnDSpell.model_validate`, reading the eleven fields in declaration order; SpellConforms, SpellFailure and SpellDump state its properties |
| DndClasses.ValidateEffect | dnd_classes.py:35-42 | `DnDEffect.model_validate`, reading the seven fields in declaration order; EffectConforms, EffectFailure and EffectDump state its properties |
| DndClasses.Validate | dnd_classes.py:7-42 | `model_validate` of whichever model `DND_MAP` selected; ValidateConforms (succeeds exactly on conforming objects), ValidateFailure (a failure names a violated declared field) and ValidateDump/DumpValidate (the two round trips with `Dump`) state its properties |
| DndClasses.Dump | dnd_classes.py:7-42 | `model_dump`: one key per declared field holding the field's value, null for None; DumpConforms, ValidateDump and DumpValidate state its properties |
| DndClasses.SchemaFor | dnd_classes.py:44-50 | the lookup `DND_MAP[t]` for a classified type `t` never misses |
| DndClasses.DndMapKeys | dnd_classes.py:5 | the keys of `DND_MAP` are exactly the five `DnDType` literals, and no key maps to `DnDEffect` |
| DndClasses.SchemaForTypes | dnd_classes.py:44-50 | Magic Item and Regular Item map to `DnDItem`, Spell maps to `DnDSpell`, and Creature and Other map to `DnDAny`, in both directions |
| DndClasses.ComponentsRoundTrip | dnd_classes.py:28 | parsing the encoding of a component list gives the list back |
| DndClasses.StringsRoundTrip | dnd_classes.py:29 | parsing the encoding of a string list gives the list back |
| DndClasses.ConformsField | dnd_classes.py:7-42 | a conforming object satisfies each declared field on its own |
| DndClasses.RequiredStrInverse | dnd_classes.py:8 | reading a `str` field gives back the value that `model_dump` wrote |
| DndClasses.NullableStrInverse | dnd_classes.py:13 | reading an `Optional[str]` field gives back the value that `model_dump` wrote, null included |
| DndClasses.NullableIntInverse | dnd_classes.py:14 | reading an `Optional[int]` field gives back the value that `model_dump` wrote |
| DndClasses.NullableAbilityInverse | dnd_classes.py:16 | reading `saving_throw_type` gives back the ability that `model_dump` wrote |
| DndClasses.RequiredComponentsInverse | dnd_classes.py:28 | reading `components` gives back the list that `model_dump` wrote |
| DndClasses.NullableStringsInverse | dnd_classes.py:29 | reading `materials` gives back the list, or null, that `model_dump` wrote |
| DndClasses.RequiredSchoolInverse | dnd_classes.py:30 | reading `magic_school` gives back the school that `model_dump` wrote |
| DndClasses.RequiredIntInverse | dnd_classes.py:31 | reading `spell_level` gives back the integer that `model_dump` wrote |
| DndClasses.AnyFields | dnd_classes.py:7-9 | `DnDAny` has exactly the non-null fields `name` and `description`, and no nullable field |
| DndClasses.AnyFieldsOf | dnd_classes.py:7-9 | a validated `DnDAny` holds exactly the field values read from the object |
| DndClasses.AnyOf | dnd_classes.py:7-9 | when every field of `DnDAny` reads as a record's value, validation gives that record |
| DndClasses.AnyConforms | dnd_classes.py:7-9 | validation against `DnDAny` succeeds exactly on the objects that satisfy its field table |
| DndClasses.AnyFailure | dnd_classes.py:7-9 | a failed `DnDAny` validation names a declared field that the object violates |
| DndClasses.AnyDump | dnd_classes.py:7-9 | validating the dump of a `DnDAny` gives the same record |
| DndClasses.AnyDumpKeys | dnd_classes.py:7-9 | the dump of a `DnDAny` has exactly its declared keys |
| DndClasses.AnyDumpValidate | dnd_classes.py:7-9 | dumping a validated `DnDAny` gives the declared fields of the input object, with their values |
| DndClasses.ItemFields | dnd_classes.py:11-20 | `DnDItem` requires non-null `name`, `rarity` and `flavour_text`; `damage`, `range`, `saving_throw`, `saving_throw_type`, `charges` and `effect_description` are nullable |
| DndClasses.ItemFieldsOf | dnd_classes.py:11-20 | a validated `DnDItem` holds exactly the field values read from the object |
| DndClasses.ItemOf | dnd_classes.py:11-20 | when every field of `DnDItem` reads as a record's value, validation gives that record |
| DndClasses.ItemConforms | dnd_classes.py:11-20 | validation against `DnDItem` succeeds exactly on the objects that satisfy its field table |
| DndClasses.ItemFailure | dnd_classes.py:11-20 | a failed `DnDItem` validation names a declared field that the object violates |
| DndClasses.ItemDump | dnd_classes.py:11-20 | validating the dump of a `DnDItem` gives the same record |
| DndClasses.ItemDumpKeys | dnd_classes.py:11-20 | the dump of a `DnDItem` has exactly its nine declared keys |
| DndClasses.ItemDumpValidate | dnd_classes.py:11-20 | dumping a validated `DnDItem` gives the declared fields of the input object, with their values |
| DndClasses.SpellFields | dnd_classes.py:22-33 | `DnDSpell` requires non-null `name`, `components`, `magic_school`, `spell_level`, `effect_description` and `flavour_text`; `damage`, `range`, `saving_throw_dc`, `saving_throw_type` and `materials` are nullable |
| DndClasses.SpellFieldsOf | dnd_classes.py:22-33 | a validated `DnDSpell` holds exactly the field values read from the object |
| DndClasses.SpellOf | dnd_classes.py:22-33 | when every field of `DnDSpell` reads as a record's value, validation gives that record |
| DndClasses.SpellConforms | dnd_classes.py:22-33 | validation against `DnDSpell` succeeds exactly on the objects that satisfy its field table |
| DndClasses.SpellFailure | dnd_classes.py:22-33 | a failed `DnDSpell` validation names a declared field that the object violates |
| DndClasses.SpellDump | dnd_classes.py:22-33 | validating the dump of a `DnDSpell` gives the same record |
| DndClasses.SpellDumpKeys | dnd_classes.py:22-33 | the dump of a `DnDSpell` has exactly its eleven declared keys |
| DndClasses.SpellDumpValidate | dnd_classes.py:22-33 | dumping a validated `DnDSpell` gives the declared fields of the input object, with their values |
| DndClasses.EffectFields | dnd_classes.py:35-42 | `DnDEffect` requires only `effect_description` and `flavour_text` to be non-null; `name`, `damage`, `range`, `saving_throw_dc` and `saving_throw_type` are nullable |
| DndClasses.EffectFieldsOf | dnd_classes.py:35-42 | a validated `DnDEffect` holds exactly the field values read from the object |
| DndClasses.EffectOf | dnd_classes.py:35-42 | when every field of `DnDEffect` reads as a record's value, validation gives that record |
| DndClasses.EffectConforms | dnd_classes.py:35-42 | validation against `DnDEffect` succeeds exactly on the objects that satisfy its field table |
| DndClasses.EffectFailure | dnd_classes.py:35-42 | a failed `DnDEffect` validation names a declared field that the object violates |
| DndClasses.EffectDump | dnd_classes.py:35-42 | validating the dump of a `DnDEffect` gives the same record |
| DndClasses.EffectDumpKeys | dnd_classes.py:35-42 | the dump of a `DnDEffect` has exactly its seven declared keys |
| DndClasses.EffectDumpValidate | dnd_classes.py:35-42 | dumping a validated `DnDEffect` gives the declared fields of the input object, with their values |
| DndClasses.ValidateConforms | dnd_classes.py:7-42 | for every model, validation succeeds exactly on the conforming objects |
| DndClasses.ValidateFailure | dnd_classes.py:7-42 | for every model, a failed validation names a declared field that the object violates |
| DndClasses.ValidateDump | dnd_classes.py:7-42 | `model_validate(model_dump(r)) == r` for every record |
| DndClasses.DumpValidate | dnd_classes.py:7-42 | a validated record belongs to the model it was validated against, and its dump is the input object restricted to that model's fields |
| DndClasses.DumpConforms | dnd_classes.py:7-42 | every record dumps to exactly its model's fields and conforms to its model |
| DndClasses.NullRejected | dnd_classes.py:7-42 | nulling a required field makes validation fail, whatever the other fields hold |
| DndClasses.NullAccepted | dnd_classes.py:7-42 | nulling a nullable field of a valid object keeps it valid: nullable means present-or-null, not absent |
| DndClasses.SavingThrowTypeIsAbility | dnd_classes.py:16-40 | `saving_throw_type` exists in every model except `DnDAny`, and in a valid object it is null or one of the six ability names |
| DndClasses.SpellLiterals | dnd_classes.py:28-30 | in a valid spell every component is Verbal, Somatic or Material, and `magic_school` is one of the five schools |
| AgentDndConverter.NodeNamesDistinct | agent_dnd_converter.py:47-49 | the three node names are pairwise distinct, so holding the node in `lnode` determines the string the source writes there |
| AgentDndConverter.ChannelNamesDistinct | agent_dnd_converter.py:21-30 | the nine `AgentState` keys are pairwise distinct strings, so each channel stands for exactly one key |
| AgentDndConverter.Successor | agent_dnd_converter.py:50-56 | the routing after each node: `type_identifier` and `reflect` go to `generate`, `generate` asks `should_continue`; `Invoke` takes its routing from it, and SuccessorFollowsEdges states that it follows the declared edges and that only `generate` reaches END |
| AgentDndConverter.PreviousRevision | agent_dnd_converter.py:87 | `state.get("revision_number", 1)`; GenerationFrame states that `generate` writes it plus one, and GenerationInputs that inside a run it is the previous generation's revision |
| AgentDndConverter.Merge | agent_dnd_converter.py:21-30 | merging adds the update's `count` to the old count, and an update that writes nothing leaves the state unchanged |
| AgentDndConverter.TypeIdentifierNode | agent_dnd_converter.py:66-75 | raises KeyError on a missing `description`, then on a missing `dnd_system`, then the validation error of a bad answer; otherwise writes exactly `dnd_type` (a `DND_MAP` key), `lnode = "type_identifier"` and `count = 1` |
| AgentDndConverter.GenerationNode | agent_dnd_converter.py:77-90 | raises KeyError on a missing `dnd_type` or one outside `DND_MAP`, then on a missing `description` or `dnd_system`, then the answer's validation error against `DND_MAP[dnd_type]`; otherwise writes exactly the validated draft, `revision_number = get("revision_number", 1) + 1`, `lnode = "generate"` and `count = 1` |
| AgentDndConverter.ReflectionNode | agent_dnd_converter.py:92-105 | raises KeyError on a missing `description`, `dnd_system` or `draft`, in that order; otherwise writes exactly the critique, `lnode = "reflect"` and `count = 1` |
| AgentDndConverter.ShouldContinue | agent_dnd_converter.py:108-111 | raises KeyError on a missing `revision_number`, then on a missing `max_revisions`; returns END exactly when `revision_number > max_revisions` and "reflect" exactly when it is not |
| AgentDndConverter.Generations | agent_dnd_converter.py:87-111 | the number of generations is at least one and is the first count whose revision number exceeds the cap: every earlier generation stays within it |
| AgentDndConverter.RunLength | agent_dnd_converter.py:87-111 | a run performs at least one generation |
| AgentDndConverter.FirstInvalid | agent_dnd_converter.py:84 | the run's first rejected draft: it is rejected, and every earlier one was accepted |
| AgentDndConverter.ClassifyStep | agent_dnd_converter.py:66-75 | with a description, a system and a valid type answer, `type_identifier` succeeds and leads to the classified state |
| AgentDndConverter.GenerationInputs | agent_dnd_converter.py:77-90 | before every generation the state holds the classified type (a `DND_MAP` key whose model is the draft's), the description, the system, and the revision number of the previous generation |
| AgentDndConverter.GenerateOutcome | agent_dnd_converter.py:77-90 | inside a run, a generation raises exactly when its draft is invalid, with that validation error |
| AgentDndConverter.GenerateStep | agent_dnd_converter.py:77-90 | a successful generation leads to the closed-form state after one more generation |
| AgentDndConverter.ReflectStep | agent_dnd_converter.py:92-105 | after a generation, `reflect` cannot raise and leads to the closed-form state holding the new critique |
| AgentDndConverter.ContinueStep | agent_dnd_converter.py:108-111 | after the k-th generation the run stops exactly when k is the run length, goes on to reflect exactly when k is smaller, and raises KeyError when `max_revisions` is missing |
| AgentDndConverter.GenerationFailure | agent_dnd_converter.py:84 | a rejected draft before the run's end makes the run fail with that draft's validation error |
| AgentDndConverter.ClassifyFailure | agent_dnd_converter.py:68-70 | when `type_identifier` raises, the run fails with that error |
| AgentDndConverter.MissingCap | agent_dnd_converter.py:109 | without `max_revisions` the run raises KeyError at the first routing decision |
| AgentDndConverter.TraceStep | agent_dnd_converter.py:52-56 | one more generation extends the trace by `generate`; before the (k+1)-th generation the trace has 2k+1 nodes |
| AgentDndConverter.Session.constructor | agent_dnd_converter.py:132-140 | `invoke` starts from empty channels, with `count` at 0, and writes the input into them |
| AgentDndConverter.Session.Apply | agent_dnd_converter.py:30 | the channels become the merge of the old channels and the update, and the node is appended to the trace |
| AgentDndConverter.Session.RunTypeIdentifier | agent_dnd_converter.py:66-75 | executing `type_identifier` fails exactly when the state is not classifiable, leaving the channels as they were; otherwise the channels hold the classified state |
| AgentDndConverter.Session.RunGeneration | agent_dnd_converter.py:77-90 | executing the (k+1)-th generation fails exactly when its draft is invalid; otherwise the channels hold the state after k+1 generations |
| AgentDndConverter.Session.RunReflection | agent_dnd_converter.py:92-105 | executing `reflect` after the k-th generation leaves the channels in the state holding the k-th critique |
| AgentDndConverter.Session.Invoke | agent_dnd_converter.py:46-56 | the run terminates; it succeeds exactly when the input has a description, a system and a cap, the type answer is valid and every draft is valid; otherwise it raises the first failure in execution order; on success it returns the final channels, equal to the closed-form state after `RunLength` generations, having executed `RunTrace(RunLength)` |
| AgentDndConverter.SuccessorFollowsEdges | agent_dnd_converter.py:50-56 | routing follows the declared edges, only `generate` can lead to END, and no edge leads back to `type_identifier` |
| AgentDndConverter.CyclesShape | agent_dnd_converter.py:52-56 | k passes round the reflect/generate cycle are 2k nodes alternating reflect and generate |
| AgentDndConverter.CyclesCount | agent_dnd_converter.py:52-56 | k passes round the cycle hold k reflections, k generations and no `type_identifier` |
| AgentDndConverter.RunTraceShape | agent_dnd_converter.py:50-56 | a run of g generations executes 2g nodes: `type_identifier` first, then generate and reflect alternating, ending on generate |
| AgentDndConverter.RunTraceCount | agent_dnd_converter.py:50-56 | a run of g generations executes `type_identifier` once, `generate` g times and `reflect` g-1 times |
| AgentDndConverter.RunTraceEdges | agent_dnd_converter.py:50-56 | every two consecutive nodes of a run are joined by an edge of the graph |
| AgentDndConverter.FinalState | agent_dnd_converter.py:71-111 | after a successful run `lnode` is "generate", the revision number exceeds the cap, `count` grew by 1 + generations + reflections, the draft is a record of `DND_MAP[dnd_type]` whose dump conforms to it, and `description`, `dnd_system` and `max_revisions` are unchanged |
| AgentDndConverter.TypeIdentifierFrame | agent_dnd_converter.py:71-75 | `type_identifier` changes only `dnd_type`, `lnode` and `count`, and `count` by one |
| AgentDndConverter.GenerationFrame | agent_dnd_converter.py:85-90 | `generate` changes only `draft`, `revision_number`, `lnode` and `count`; it raises the revision number by one over the stored value, or over 1 when there is none |
| AgentDndConverter.ReflectionFrame | agent_dnd_converter.py:101-105 | `reflect` changes only `critique`, `lnode` and `count`, so `draft` and `revision_number` are kept |
| AgentDndConverter.GenerationIgnoresCritique | agent_dnd_converter.py:78-84 | the result of `generate` does not depend on `critique` |
| AgentDndConverter.StartAtZero | agent_dnd_converter.py:87-111 | for any input state with `revision_number = 0` and `max_revisions = M >= 0`, the run length `Invoke` is proved against is M+1, and the run's trace holds M+1 generations and M reflections |
| AgentDndConverter.NoRevisions | agent_dnd_converter.py:108-111 | for any input state with `max_revisions = 0` and start 0, the run is one generation and its trace is type_identifier, generate, with no reflection |
| AgentDndConverter.MissingStartRevision | agent_dnd_converter.py:87 | for an input without `revision_number` and a cap M of at least 1, the first generation reads 1, so the run has M generations, one fewer than the same input started from 0 |
| AgentDndConverter.MainRun | agent_dnd_converter.py:113-140 | `main`'s input (cap 1, start 0) gives two generations, the trace type_identifier, generate, reflect, generate, and four steps |

## Left out

- The language-model backends (`ChatOpenAI`, `with_structured_output`, `invoke`) are oracle parameters. The model does not capture prompt text, temperature or retries. The prompts in `llm_prompts.py` are opaque, since the nodes only pass state values to `str.format`.
- `llm_prompts.py` defines no `REFLECTION_PROMPT`, so the import at agent_dnd_converter.py:16 fails as written. The model assumes the prompt exists, treats it as opaque, and lets the node run.
- LangGraph's `MemorySaver` checkpointing and the `thread_id` configuration are runtime machinery with no effect on one run's result.
- AgentDndConverter.Session.Invoke: does not model LangGraph's recursion limit (25 supersteps by default). The library raises when a run needs more steps than that, which happens from 13 generations upward. The model lets such a run finish.
- AgentDndConverter.Session.Invoke: the contract states the final channels and the trace for successful runs only. After a failed run `invoke` raises and returns no state, so the channels left behind are not stated.
- The streaming variant in `main`, `print`, and the return of `model_dump()` are I/O. `FinalState` states the dumped draft's shape.
- State keys outside the nine `AgentState` keys, and object keys outside the sixteen field names, are not represented. Validation ignores them.
- DndClasses.Validate: reports only the first failing field in declaration order. Pydantic collects every field error into one exception, and the run aborts either way.
- DndClasses.Validate: pydantic's lax coercions, such as a numeric string accepted as `int`, are not modelled. Only exact JSON kinds are accepted.
- `llm_tools.py`, `rag_tools.py`, `dnd_converter.py`, `effect_creator.py`, `orchestrator.py` and `config.py` are not part of this model. They hold backend dispatch, file and vector-store I/O, and pipelines around them.
