/**
  The draft/critique workflow of agent_dnd_converter.py.

  The LangGraph graph has three nodes. `type_identifier` is the entry and
  always goes to `generate`; after `generate`, `should_continue` picks END
  or `reflect`; `reflect` always goes back to `generate`. Each node reads the
  shared `AgentState` and returns a partial update; the runtime merges the
  update into the state, overwriting every key it names except `count`,
  which the `operator.add` reducer sums.

  The node functions and `should_continue` are pure functions here. The run
  of the compiled graph is the method `Session.Invoke`: it executes the entry
  node, then loops over generate and reflect, merging each update into the
  session's fields and taking each routing decision from `Successor`. The
  language-model answers are parameters: the classifier's structured answer,
  the generator's structured answer at each generation, and the critique
  text at each reflection.
*/
module AgentDndConverter {
  import opened Wrappers
  import opened DndClasses

  // ---------------------------------------------------------------------
  // The graph
  // ---------------------------------------------------------------------

  datatype Node = TypeIdentifier | Generate | Reflect

  /** The node's name in the graph, which is also what it writes to `lnode`. */
  function NodeName(n: Node): string {
    match n
    case TypeIdentifier => "type_identifier"
    case Generate => "generate"
    case Reflect => "reflect"
  }

  /** Where control goes after a node: another node, or END. */
  datatype Target = To(node: Node) | End

  /** The edges between nodes: type_identifier -> generate, generate -> reflect, reflect -> generate. */
  predicate Edge(a: Node, b: Node) {
    (a == TypeIdentifier && b == Generate) || (a == Generate && b == Reflect) || (a == Reflect && b == Generate)
  }

  // ---------------------------------------------------------------------
  // State, updates and the merge
  // ---------------------------------------------------------------------

  /** The keys of `AgentState`. */
  datatype Channel =
    | DescriptionKey | LnodeKey | DndTypeKey | DndSystemKey | DraftKey
    | CritiqueKey | RevisionNumberKey | MaxRevisionsKey | CountKey

  function ChannelName(c: Channel): string {
    match c
    case DescriptionKey => "description"
    case LnodeKey => "lnode"
    case DndTypeKey => "dnd_type"
    case DndSystemKey => "dnd_system"
    case DraftKey => "draft"
    case CritiqueKey => "critique"
    case RevisionNumberKey => "revision_number"
    case MaxRevisionsKey => "max_revisions"
    case CountKey => "count"
  }

  /**
    A snapshot of `AgentState`. A key that was never written is None, since
    reading it raises KeyError; `count` always has a value, its reducer
    starting from 0.
  */
  datatype AgentState = AgentState(
    description: Option<string>,
    lnode: Option<Node>,
    dndType: Option<string>,
    dndSystem: Option<string>,
    draft: Option<Record>,
    critique: Option<string>,
    revisionNumber: Option<int>,
    maxRevisions: Option<int>,
    count: int)

  const EmptyState: AgentState := AgentState(None, None, None, None, None, None, None, None, 0)

  /** A partial update, as a node returns it or as the input of `invoke`: None means the key is absent. */
  datatype Update = Update(
    description: Option<string>,
    lnode: Option<Node>,
    dndType: Option<string>,
    dndSystem: Option<string>,
    draft: Option<Record>,
    critique: Option<string>,
    revisionNumber: Option<int>,
    maxRevisions: Option<int>,
    count: Option<int>)

  const NoUpdate: Update := Update(None, None, None, None, None, None, None, None, None)

  /** The keys an update writes. */
  function Written(u: Update): set<Channel> {
    (if u.description.Some? then {DescriptionKey} else {})
    + (if u.lnode.Some? then {LnodeKey} else {})
    + (if u.dndType.Some? then {DndTypeKey} else {})
    + (if u.dndSystem.Some? then {DndSystemKey} else {})
    + (if u.draft.Some? then {DraftKey} else {})
    + (if u.critique.Some? then {CritiqueKey} else {})
    + (if u.revisionNumber.Some? then {RevisionNumberKey} else {})
    + (if u.maxRevisions.Some? then {MaxRevisionsKey} else {})
    + (if u.count.Some? then {CountKey} else {})
  }

  function Overwrite<T>(old_: Option<T>, new_: Option<T>): Option<T> {
    if new_.Some? then new_ else old_
  }

  /** The runtime's merge: a written key is overwritten, except `count`, which is added to. */
  function Merge(s: AgentState, u: Update): (r: AgentState)
    ensures r.count == s.count + u.count.GetOr(0)
    ensures Written(u) == {} ==> r == s
  {
    AgentState(
      Overwrite(s.description, u.description),
      Overwrite(s.lnode, u.lnode),
      Overwrite(s.dndType, u.dndType),
      Overwrite(s.dndSystem, u.dndSystem),
      Overwrite(s.draft, u.draft),
      Overwrite(s.critique, u.critique),
      Overwrite(s.revisionNumber, u.revisionNumber),
      Overwrite(s.maxRevisions, u.maxRevisions),
      s.count + u.count.GetOr(0))
  }

  /** A node failure aborts the run: a missing state key, or a structured answer its model rejects. */
  datatype Error = KeyError(key: string) | ValidationError(error: FieldError)

  // ---------------------------------------------------------------------
  // The nodes
  // ---------------------------------------------------------------------

  /**
    `type_identifier_node`: formats the prompt from `description` and
    `dnd_system`, and asks the classifier for a `DnDType`.
  */
  function TypeIdentifierNode(s: AgentState, answer: Object): (r: Result<Update, Error>)
    ensures s.description.None? ==> r == Failure(KeyError(ChannelName(DescriptionKey)))
    ensures s.description.Some? && s.dndSystem.None? ==> r == Failure(KeyError(ChannelName(DndSystemKey)))
    ensures s.description.Some? && s.dndSystem.Some? && ValidateDnDType(answer).Failure? ==>
      r == Failure(ValidationError(ValidateDnDType(answer).error))
    ensures r.Success? <==> s.description.Some? && s.dndSystem.Some? && ValidateDnDType(answer).Success?
    ensures r.Success? ==> Written(r.value) == {DndTypeKey, LnodeKey, CountKey}
    ensures r.Success? ==> r.value.dndType == Some(TypeName(ValidateDnDType(answer).value))
    ensures r.Success? ==> r.value.dndType.value in DndMap
    ensures r.Success? ==> r.value.lnode == Some(TypeIdentifier) && r.value.count == Some(1)
  {
    if s.description.None? then Failure(KeyError(ChannelName(DescriptionKey)))
    else if s.dndSystem.None? then Failure(KeyError(ChannelName(DndSystemKey)))
    else match ValidateDnDType(answer)
      case Failure(e) => Failure(ValidationError(e))
      case Success(t) =>
        assert TypeName(t) in DndMap by { var _ := SchemaFor(t); }
        Success(NoUpdate.(dndType := Some(TypeName(t)), lnode := Some(TypeIdentifier), count := Some(1)))
  }

  /** The `revision_number` that `generation_node` reads: the stored one, or 1 when the key is absent. */
  function PreviousRevision(s: AgentState): int {
    s.revisionNumber.GetOr(1)
  }

  /**
    `generation_node`: looks up `DND_MAP[dnd_type]`, formats the prompt from
    `description` and `dnd_system`, and asks the generator for a record of
    that model. It does not read `critique`.
  */
  function GenerationNode(s: AgentState, answer: Object): (r: Result<Update, Error>)
    ensures s.dndType.None? ==> r == Failure(KeyError(ChannelName(DndTypeKey)))
    ensures s.dndType.Some? && s.dndType.value !in DndMap ==> r == Failure(KeyError(s.dndType.value))
    ensures s.dndType.Some? && s.dndType.value in DndMap && s.description.None? ==>
      r == Failure(KeyError(ChannelName(DescriptionKey)))
    ensures s.dndType.Some? && s.dndType.value in DndMap && s.description.Some? && s.dndSystem.None? ==>
      r == Failure(KeyError(ChannelName(DndSystemKey)))
    ensures r.Success? <==>
      s.dndType.Some? && s.dndType.value in DndMap && s.description.Some? && s.dndSystem.Some?
      && Validate(DndMap[s.dndType.value], answer).Success?
    ensures r.Failure? && s.dndType.Some? && s.dndType.value in DndMap && s.description.Some? && s.dndSystem.Some? ==>
      r.error == ValidationError(Validate(DndMap[s.dndType.value], answer).error)
    ensures r.Success? ==> Written(r.value) == {DraftKey, RevisionNumberKey, LnodeKey, CountKey}
    ensures r.Success? ==> r.value.draft == Some(Validate(DndMap[s.dndType.value], answer).value)
    ensures r.Success? ==> r.value.revisionNumber == Some(PreviousRevision(s) + 1)
    ensures r.Success? ==> r.value.lnode == Some(Generate) && r.value.count == Some(1)
  {
    if s.dndType.None? then Failure(KeyError(ChannelName(DndTypeKey)))
    else if s.dndType.value !in DndMap then Failure(KeyError(s.dndType.value))
    else if s.description.None? then Failure(KeyError(ChannelName(DescriptionKey)))
    else if s.dndSystem.None? then Failure(KeyError(ChannelName(DndSystemKey)))
    else match Validate(DndMap[s.dndType.value], answer)
      case Failure(e) => Failure(ValidationError(e))
      case Success(record) =>
        Success(NoUpdate.(draft := Some(record), revisionNumber := Some(PreviousRevision(s) + 1),
                          lnode := Some(Generate), count := Some(1)))
  }

  /**
    `reflection_node`: formats the prompt from `description`, `dnd_system`
    and the `draft`, and stores the critic's answer.
  */
  function ReflectionNode(s: AgentState, critique: string): (r: Result<Update, Error>)
    ensures s.description.None? ==> r == Failure(KeyError(ChannelName(DescriptionKey)))
    ensures s.description.Some? && s.dndSystem.None? ==> r == Failure(KeyError(ChannelName(DndSystemKey)))
    ensures s.description.Some? && s.dndSystem.Some? && s.draft.None? ==> r == Failure(KeyError(ChannelName(DraftKey)))
    ensures r.Success? <==> s.description.Some? && s.dndSystem.Some? && s.draft.Some?
    ensures r.Success? ==> Written(r.value) == {CritiqueKey, LnodeKey, CountKey}
    ensures r.Success? ==> r.value.critique == Some(critique)
    ensures r.Success? ==> r.value.lnode == Some(Reflect) && r.value.count == Some(1)
  {
    if s.description.None? then Failure(KeyError(ChannelName(DescriptionKey)))
    else if s.dndSystem.None? then Failure(KeyError(ChannelName(DndSystemKey)))
    else if s.draft.None? then Failure(KeyError(ChannelName(DraftKey)))
    else Success(NoUpdate.(critique := Some(critique), lnode := Some(Reflect), count := Some(1)))
  }

  /** `should_continue`: END once `revision_number` exceeds `max_revisions`, otherwise `reflect`. */
  function ShouldContinue(s: AgentState): (r: Result<Target, Error>)
    ensures s.revisionNumber.None? ==> r == Failure(KeyError(ChannelName(RevisionNumberKey)))
    ensures s.revisionNumber.Some? && s.maxRevisions.None? ==> r == Failure(KeyError(ChannelName(MaxRevisionsKey)))
    ensures r == Success(End) <==>
      s.revisionNumber.Some? && s.maxRevisions.Some? && s.revisionNumber.value > s.maxRevisions.value
    ensures r == Success(To(Reflect)) <==>
      s.revisionNumber.Some? && s.maxRevisions.Some? && s.revisionNumber.value <= s.maxRevisions.value
  {
    if s.revisionNumber.None? then Failure(KeyError(ChannelName(RevisionNumberKey)))
    else if s.maxRevisions.None? then Failure(KeyError(ChannelName(MaxRevisionsKey)))
    else if s.revisionNumber.value > s.maxRevisions.value then Success(End)
    else Success(To(Reflect))
  }

  /** The graph's routing after `node` has run and its update has been merged into `s`. */
  function Successor(node: Node, s: AgentState): Result<Target, Error> {
    match node
    case TypeIdentifier => Success(To(Generate))
    case Generate => ShouldContinue(s)
    case Reflect => Success(To(Generate))
  }

  // ---------------------------------------------------------------------
  // The run, in closed form
  // ---------------------------------------------------------------------

  /** The `revision_number` written by the k-th generation when the first one reads `base`. */
  function RevisionAfter(base: int, k: nat): int {
    base + k
  }

  /**
    The number of `generate` steps when the first one reads `base` and the
    cap is `maxRevisions`: the run stops at the first generation whose
    revision number exceeds the cap.
  */
  function Generations(base: int, maxRevisions: int): (g: nat)
    ensures g >= 1
    ensures RevisionAfter(base, g) > maxRevisions
    ensures forall k :: 1 <= k < g ==> RevisionAfter(base, k) <= maxRevisions
  {
    if maxRevisions - base + 1 >= 1 then maxRevisions - base + 1 else 1
  }

  /** The number of generations a run from `s0` performs (one when `max_revisions` is missing: the run fails after it). */
  function RunLength(s0: AgentState): (g: nat)
    ensures g >= 1
  {
    if s0.maxRevisions.Some? then Generations(PreviousRevision(s0), s0.maxRevisions.value) else 1
  }

  /** `k` passes round the reflect -> generate cycle. */
  function Cycles(k: nat): seq<Node> {
    if k == 0 then [] else Cycles(k - 1) + [Reflect, Generate]
  }

  /** The nodes executed by a run of `g >= 1` generations. */
  function RunTrace(g: nat): seq<Node>
    requires g >= 1
  {
    [TypeIdentifier, Generate] + Cycles(g - 1)
  }

  /** The nodes executed before the (k+1)-th generation. */
  function TraceBeforeGeneration(k: nat): seq<Node> {
    if k == 0 then [TypeIdentifier] else RunTrace(k) + [Reflect]
  }

  /** The node at position `i` of a run: the classifier first, then generate and reflect alternating. */
  function NodeAt(i: nat): Node {
    if i == 0 then TypeIdentifier else if i % 2 == 1 then Generate else Reflect
  }

  predicate Classified(s0: AgentState, typeAnswer: Object) {
    s0.description.Some? && s0.dndSystem.Some? && ValidateDnDType(typeAnswer).Success?
  }

  /** The model that every draft of the run is validated against. */
  function DraftSchema(typeAnswer: Object): Schema
    requires ValidateDnDType(typeAnswer).Success?
  {
    SchemaFor(ValidateDnDType(typeAnswer).value)
  }

  predicate DraftsValid(schema: Schema, drafts: nat -> Object, n: nat) {
    forall i :: 0 <= i < n ==> Validate(schema, drafts(i)).Success?
  }

  /** The conditions under which `invoke` returns instead of raising. */
  predicate RunSucceeds(s0: AgentState, typeAnswer: Object, drafts: nat -> Object) {
    Classified(s0, typeAnswer) && s0.maxRevisions.Some?
    && DraftsValid(DraftSchema(typeAnswer), drafts, RunLength(s0))
  }

  /** The first draft at or after `i` and before `g` that its model rejects. */
  function FirstInvalid(schema: Schema, drafts: nat -> Object, i: nat, g: nat): (j: nat)
    requires i <= g
    requires exists j :: i <= j < g && Validate(schema, drafts(j)).Failure?
    ensures i <= j < g && Validate(schema, drafts(j)).Failure?
    ensures forall l :: i <= l < j ==> Validate(schema, drafts(l)).Success?
    decreases g - i
  {
    if Validate(schema, drafts(i)).Failure? then i else FirstInvalid(schema, drafts, i + 1, g)
  }

  /** The exception a failing run raises: the first node failure in execution order. */
  function RunError(s0: AgentState, typeAnswer: Object, drafts: nat -> Object): Error
    requires !RunSucceeds(s0, typeAnswer, drafts)
  {
    if s0.description.None? then KeyError(ChannelName(DescriptionKey))
    else if s0.dndSystem.None? then KeyError(ChannelName(DndSystemKey))
    else if ValidateDnDType(typeAnswer).Failure? then ValidationError(ValidateDnDType(typeAnswer).error)
    else if Validate(DraftSchema(typeAnswer), drafts(0)).Failure? then
      ValidationError(Validate(DraftSchema(typeAnswer), drafts(0)).error)
    else if s0.maxRevisions.None? then KeyError(ChannelName(MaxRevisionsKey))
    else
      var j := FirstInvalid(DraftSchema(typeAnswer), drafts, 1, RunLength(s0));
      ValidationError(Validate(DraftSchema(typeAnswer), drafts(j)).error)
  }

  /** The state right after `type_identifier`. */
  function StateClassified(s0: AgentState, typeAnswer: Object): AgentState
    requires Classified(s0, typeAnswer)
  {
    s0.(dndType := Some(TypeName(ValidateDnDType(typeAnswer).value)),
        lnode := Some(TypeIdentifier),
        count := s0.count + 1)
  }

  /**
    The state after `type_identifier` and `k >= 1` generations, and, when
    `critiqued`, the reflection that follows the k-th generation.
  */
  function StateAfter(s0: AgentState, typeAnswer: Object, drafts: nat -> Object, critiques: nat -> string,
                      k: nat, critiqued: bool): AgentState
    requires Classified(s0, typeAnswer) && k >= 1 && DraftsValid(DraftSchema(typeAnswer), drafts, k)
  {
    s0.(lnode := Some(if critiqued then Reflect else Generate),
        dndType := Some(TypeName(ValidateDnDType(typeAnswer).value)),
        draft := Some(Validate(DraftSchema(typeAnswer), drafts(k - 1)).value),
        critique := if critiqued then Some(critiques(k - 1))
                    else if k >= 2 then Some(critiques(k - 2))
                    else s0.critique,
        revisionNumber := Some(RevisionAfter(PreviousRevision(s0), k)),
        count := s0.count + 2 * k + (if critiqued then 1 else 0))
  }

  /** The state in which the (k+1)-th generation runs. */
  function StateBeforeGeneration(s0: AgentState, typeAnswer: Object, drafts: nat -> Object, critiques: nat -> string,
                                 k: nat): AgentState
    requires Classified(s0, typeAnswer) && DraftsValid(DraftSchema(typeAnswer), drafts, k)
  {
    if k == 0 then StateClassified(s0, typeAnswer) else StateAfter(s0, typeAnswer, drafts, critiques, k, true)
  }

  // ---------------------------------------------------------------------
  // One step at a time
  // ---------------------------------------------------------------------

  /** With a description, a system and a valid type answer, `type_identifier` leads to `StateClassified`. */
  lemma ClassifyStep(s0: AgentState, typeAnswer: Object)
    requires Classified(s0, typeAnswer)
    ensures TypeIdentifierNode(s0, typeAnswer).Success?
    ensures Merge(s0, TypeIdentifierNode(s0, typeAnswer).value) == StateClassified(s0, typeAnswer)
  {
  }

  /** What the (k+1)-th generation reads: the classified type, the description, the system and the last revision number. */
  lemma GenerationInputs(s0: AgentState, typeAnswer: Object, drafts: nat -> Object, critiques: nat -> string, k: nat)
    requires Classified(s0, typeAnswer) && DraftsValid(DraftSchema(typeAnswer), drafts, k)
    ensures var s := StateBeforeGeneration(s0, typeAnswer, drafts, critiques, k);
      s.dndType == Some(TypeName(ValidateDnDType(typeAnswer).value))
      && s.dndType.value in DndMap && DndMap[s.dndType.value] == DraftSchema(typeAnswer)
      && s.description.Some? && s.dndSystem.Some?
      && PreviousRevision(s) == RevisionAfter(PreviousRevision(s0), k)
  {
    var t := ValidateDnDType(typeAnswer).value;
    assert DndMap[TypeName(t)] == SchemaFor(t);
  }

  /** The (k+1)-th generation raises exactly when its draft is invalid, with that validation error. */
  lemma GenerateOutcome(s0: AgentState, typeAnswer: Object, drafts: nat -> Object, critiques: nat -> string, k: nat)
    requires Classified(s0, typeAnswer) && DraftsValid(DraftSchema(typeAnswer), drafts, k)
    ensures var s := StateBeforeGeneration(s0, typeAnswer, drafts, critiques, k);
      (GenerationNode(s, drafts(k)).Success? <==> Validate(DraftSchema(typeAnswer), drafts(k)).Success?)
      && (GenerationNode(s, drafts(k)).Failure? ==>
            GenerationNode(s, drafts(k)).error == ValidationError(Validate(DraftSchema(typeAnswer), drafts(k)).error))
  {
    GenerationInputs(s0, typeAnswer, drafts, critiques, k);
  }

  /** A successful (k+1)-th generation leads to `StateAfter(k + 1)`. */
  lemma GenerateStep(s0: AgentState, typeAnswer: Object, drafts: nat -> Object, critiques: nat -> string, k: nat)
    requires Classified(s0, typeAnswer) && DraftsValid(DraftSchema(typeAnswer), drafts, k)
    requires GenerationNode(StateBeforeGeneration(s0, typeAnswer, drafts, critiques, k), drafts(k)).Success?
    ensures DraftsValid(DraftSchema(typeAnswer), drafts, k + 1)
    ensures var s := StateBeforeGeneration(s0, typeAnswer, drafts, critiques, k);
      Merge(s, GenerationNode(s, drafts(k)).value) == StateAfter(s0, typeAnswer, drafts, critiques, k + 1, false)
  {
    GenerationInputs(s0, typeAnswer, drafts, critiques, k);
  }

  /** After the k-th generation, `reflect` cannot fail and stores the k-th critique. */
  lemma ReflectStep(s0: AgentState, typeAnswer: Object, drafts: nat -> Object, critiques: nat -> string, k: nat)
    requires Classified(s0, typeAnswer) && k >= 1 && DraftsValid(DraftSchema(typeAnswer), drafts, k)
    ensures var s := StateAfter(s0, typeAnswer, drafts, critiques, k, false);
      ReflectionNode(s, critiques(k - 1)).Success?
      && Merge(s, ReflectionNode(s, critiques(k - 1)).value) == StateAfter(s0, typeAnswer, drafts, critiques, k, true)
  {
  }

  /** After the k-th generation, the run stops exactly when k is the run length, and fails when the cap is missing. */
  lemma ContinueStep(s0: AgentState, typeAnswer: Object, drafts: nat -> Object, critiques: nat -> string, k: nat)
    requires Classified(s0, typeAnswer) && 1 <= k <= RunLength(s0) && DraftsValid(DraftSchema(typeAnswer), drafts, k)
    ensures var r := ShouldContinue(StateAfter(s0, typeAnswer, drafts, critiques, k, false));
      (s0.maxRevisions.None? ==> r == Failure(KeyError(ChannelName(MaxRevisionsKey))))
      && (r == Success(End) <==> s0.maxRevisions.Some? && k == RunLength(s0))
      && (r == Success(To(Reflect)) <==> s0.maxRevisions.Some? && k < RunLength(s0))
  {
  }

  /** When the generation after `k` valid drafts fails, that failure is the run's error. */
  lemma GenerationFailure(s0: AgentState, typeAnswer: Object, drafts: nat -> Object, k: nat)
    requires Classified(s0, typeAnswer)
    requires k < RunLength(s0)
    requires DraftsValid(DraftSchema(typeAnswer), drafts, k)
    requires Validate(DraftSchema(typeAnswer), drafts(k)).Failure?
    ensures !RunSucceeds(s0, typeAnswer, drafts)
    ensures RunError(s0, typeAnswer, drafts) == ValidationError(Validate(DraftSchema(typeAnswer), drafts(k)).error)
  {
    if k >= 1 {
      var j := FirstInvalid(DraftSchema(typeAnswer), drafts, 1, RunLength(s0));
      assert j == k;
    }
  }

  /** When `type_identifier` raises, that is the run's error. */
  lemma ClassifyFailure(s0: AgentState, typeAnswer: Object, drafts: nat -> Object)
    requires !Classified(s0, typeAnswer)
    ensures !RunSucceeds(s0, typeAnswer, drafts)
    ensures RunError(s0, typeAnswer, drafts) == TypeIdentifierNode(s0, typeAnswer).error
  {
  }

  /** Without `max_revisions`, the run raises KeyError at the first routing decision. */
  lemma MissingCap(s0: AgentState, typeAnswer: Object, drafts: nat -> Object)
    requires Classified(s0, typeAnswer) && s0.maxRevisions.None?
    requires Validate(DraftSchema(typeAnswer), drafts(0)).Success?
    ensures !RunSucceeds(s0, typeAnswer, drafts)
    ensures RunError(s0, typeAnswer, drafts) == KeyError(ChannelName(MaxRevisionsKey))
  {
  }

  /** Appending one more pass round the cycle. */
  lemma TraceStep(k: nat)
    ensures RunTrace(k + 1) == TraceBeforeGeneration(k) + [Generate]
    ensures |TraceBeforeGeneration(k)| == 2 * k + 1
  {
    CyclesShape(k);
    if k >= 1 {
      assert Cycles(k) == Cycles(k - 1) + [Reflect, Generate];
    }
  }

  // ---------------------------------------------------------------------
  // The session: one compiled graph run
  // ---------------------------------------------------------------------

  /** The channels of one graph run, updated in place as the nodes execute. */
  class Session {
    var description: Option<string>
    var lnode: Option<Node>
    var dndType: Option<string>
    var dndSystem: Option<string>
    var draft: Option<Record>
    var critique: Option<string>
    var revisionNumber: Option<int>
    var maxRevisions: Option<int>
    var count: int
    /** The nodes executed so far, in order. */
    ghost var trace: seq<Node>

    function State(): AgentState
      reads this
    {
      AgentState(description, lnode, dndType, dndSystem, draft, critique, revisionNumber, maxRevisions, count)
    }

    /** `graph.invoke(input)` starts from empty channels and writes the input into them. */
    constructor(input: Update)
      ensures State() == Merge(EmptyState, input)
      ensures trace == []
    {
      description := input.description;
      lnode := input.lnode;
      dndType := input.dndType;
      dndSystem := input.dndSystem;
      draft := input.draft;
      critique := input.critique;
      revisionNumber := input.revisionNumber;
      maxRevisions := input.maxRevisions;
      count := input.count.GetOr(0);
      trace := [];
    }

    /** Merges the update returned by `node` into the channels. */
    method Apply(node: Node, u: Update)
      modifies this
      ensures State() == Merge(old(State()), u)
      ensures trace == old(trace) + [node]
    {
      description := Overwrite(description, u.description);
      lnode := Overwrite(lnode, u.lnode);
      dndType := Overwrite(dndType, u.dndType);
      dndSystem := Overwrite(dndSystem, u.dndSystem);
      draft := Overwrite(draft, u.draft);
      critique := Overwrite(critique, u.critique);
      revisionNumber := Overwrite(revisionNumber, u.revisionNumber);
      maxRevisions := Overwrite(maxRevisions, u.maxRevisions);
      count := count + u.count.GetOr(0);
      trace := trace + [node];
    }

    /** Executes `type_identifier`; when it raises, the channels are left as they were. */
    method RunTypeIdentifier(typeAnswer: Object) returns (err: Option<Error>)
      modifies this
      ensures err.None? <==> Classified(old(State()), typeAnswer)
      ensures err.Some? ==> err.value == TypeIdentifierNode(old(State()), typeAnswer).error && State() == old(State())
      ensures err.None? ==>
        State() == StateClassified(old(State()), typeAnswer) && trace == old(trace) + [TypeIdentifier]
    {
      var r := TypeIdentifierNode(State(), typeAnswer);
      if r.Failure? {
        return Some(r.error);
      }
      ClassifyStep(State(), typeAnswer);
      Apply(TypeIdentifier, r.value);
      return None;
    }

    /** Executes `generate` as the (k+1)-th generation of a run from `s0`; it raises exactly when the draft is invalid. */
    method RunGeneration(ghost s0: AgentState, typeAnswer: Object, drafts: nat -> Object,
                         ghost critiques: nat -> string, k: nat) returns (err: Option<Error>)
      requires Classified(s0, typeAnswer) && DraftsValid(DraftSchema(typeAnswer), drafts, k)
      requires State() == StateBeforeGeneration(s0, typeAnswer, drafts, critiques, k)
      modifies this
      ensures err.None? <==> Validate(DraftSchema(typeAnswer), drafts(k)).Success?
      ensures err.Some? ==> err.value == ValidationError(Validate(DraftSchema(typeAnswer), drafts(k)).error)
      ensures err.None? ==>
        DraftsValid(DraftSchema(typeAnswer), drafts, k + 1)
        && State() == StateAfter(s0, typeAnswer, drafts, critiques, k + 1, false)
        && trace == old(trace) + [Generate]
    {
      GenerateOutcome(s0, typeAnswer, drafts, critiques, k);
      var r := GenerationNode(State(), drafts(k));
      if r.Failure? {
        return Some(r.error);
      }
      GenerateStep(s0, typeAnswer, drafts, critiques, k);
      Apply(Generate, r.value);
      return None;
    }

    /** Executes `reflect` after the k-th generation of a run from `s0`; it cannot raise there. */
    method RunReflection(ghost s0: AgentState, ghost typeAnswer: Object, ghost drafts: nat -> Object,
                         critiques: nat -> string, k: nat)
      requires Classified(s0, typeAnswer) && k >= 1 && DraftsValid(DraftSchema(typeAnswer), drafts, k)
      requires State() == StateAfter(s0, typeAnswer, drafts, critiques, k, false)
      modifies this
      ensures State() == StateAfter(s0, typeAnswer, drafts, critiques, k, true)
      ensures trace == old(trace) + [Reflect]
    {
      ReflectStep(s0, typeAnswer, drafts, critiques, k);
      var r := ReflectionNode(State(), critiques(k - 1));
      Apply(Reflect, r.value);
    }

    /**
      Runs the graph from the entry node until END: `type_identifier`, then
      `generate`, followed by `reflect` and `generate` again for as long as
      `should_continue` says so. `typeAnswer` is the classifier's structured
      answer, `drafts(i)` the generator's answer at the (i+1)-th generation
      and `critiques(i)` the critic's answer at the (i+1)-th reflection.
    */
    method Invoke(typeAnswer: Object, drafts: nat -> Object, critiques: nat -> string)
      returns (res: Result<AgentState, Error>)
      requires trace == []
      modifies this
      ensures res.Success? <==> RunSucceeds(old(State()), typeAnswer, drafts)
      ensures res.Failure? ==> res.error == RunError(old(State()), typeAnswer, drafts)
      ensures res.Success? ==> res.value == State()
      ensures res.Success? ==>
        State() == StateAfter(old(State()), typeAnswer, drafts, critiques, RunLength(old(State())), false)
      ensures res.Success? ==> trace == RunTrace(RunLength(old(State())))
    {
      ghost var s0 := State();
      ghost var g := RunLength(s0);
      var err := RunTypeIdentifier(typeAnswer);
      if err.Some? {
        ClassifyFailure(s0, typeAnswer, drafts);
        return Failure(err.value);
      }
      assert Successor(TypeIdentifier, State()) == Success(To(Generate));
      var k: nat := 0;  // generations so far, which indexes the generator's and the critic's answers
      while true
        invariant Classified(s0, typeAnswer) && k < g && DraftsValid(DraftSchema(typeAnswer), drafts, k)
        invariant k >= 1 ==> s0.maxRevisions.Some?
        invariant trace == TraceBeforeGeneration(k)
        invariant State() == StateBeforeGeneration(s0, typeAnswer, drafts, critiques, k)
        decreases g - k
      {
        TraceStep(k);
        err := RunGeneration(s0, typeAnswer, drafts, critiques, k);
        if err.Some? {
          GenerationFailure(s0, typeAnswer, drafts, k);
          return Failure(err.value);
        }
        k := k + 1;
        ContinueStep(s0, typeAnswer, drafts, critiques, k);
        var next := Successor(Generate, State());
        if next.Failure? {
          MissingCap(s0, typeAnswer, drafts);
          return Failure(next.error);
        }
        if next.value == End {
          return Success(State());
        }
        assert next.value == To(Reflect);
        RunReflection(s0, typeAnswer, drafts, critiques, k);
        next := Successor(Reflect, State());
        assert next.value == To(Generate);
      }
    }
  }

  // ---------------------------------------------------------------------
  // Properties of the graph and of a run
  // ---------------------------------------------------------------------

  /** Routing follows the edges, only `generate` leads to END, and nothing leads back to the entry. */
  lemma SuccessorFollowsEdges(node: Node, s: AgentState)
    ensures Successor(node, s) == Success(End) ==> node == Generate
    ensures forall m :: Successor(node, s) == Success(To(m)) ==> Edge(node, m)
    ensures forall a :: !Edge(a, TypeIdentifier)
  {
  }

  lemma {:induction false} CyclesShape(k: nat)
    ensures |Cycles(k)| == 2 * k
    ensures forall i :: 0 <= i < |Cycles(k)| ==> Cycles(k)[i] == NodeAt(i + 2)
  {
    if k > 0 {
      CyclesShape(k - 1);
      var c := Cycles(k - 1);
      assert Cycles(k) == c + [Reflect, Generate];
      forall i | 0 <= i < |Cycles(k)|
        ensures Cycles(k)[i] == NodeAt(i + 2)
      {
        if i < |c| {
          assert Cycles(k)[i] == c[i];
        }
      }
    }
  }

  lemma {:induction false} CyclesCount(k: nat)
    ensures multiset(Cycles(k))[Reflect] == k && multiset(Cycles(k))[Generate] == k
    ensures multiset(Cycles(k))[TypeIdentifier] == 0
  {
    if k > 0 {
      CyclesCount(k - 1);
      assert Cycles(k) == Cycles(k - 1) + [Reflect, Generate];
      assert multiset(Cycles(k)) == multiset(Cycles(k - 1)) + multiset{Reflect, Generate};
    }
  }

  /**
    A run of `g` generations executes `type_identifier` once, first, then
    alternates generate and reflect, ending with generate: `2 * g` steps in all.
  */
  lemma RunTraceShape(g: nat)
    requires g >= 1
    ensures |RunTrace(g)| == 2 * g
    ensures forall i :: 0 <= i < |RunTrace(g)| ==> RunTrace(g)[i] == NodeAt(i)
    ensures RunTrace(g)[|RunTrace(g)| - 1] == Generate
  {
    var c := Cycles(g - 1);
    CyclesShape(g - 1);
    assert RunTrace(g) == [TypeIdentifier, Generate] + c;
    forall i | 2 <= i < |RunTrace(g)|
      ensures RunTrace(g)[i] == NodeAt(i)
    {
      assert RunTrace(g)[i] == c[i - 2];
    }
  }

  /** A run of `g` generations executes `type_identifier` once, `generate` `g` times and `reflect` `g - 1` times. */
  lemma RunTraceCount(g: nat)
    requires g >= 1
    ensures multiset(RunTrace(g))[TypeIdentifier] == 1
    ensures multiset(RunTrace(g))[Generate] == g && multiset(RunTrace(g))[Reflect] == g - 1
  {
    CyclesCount(g - 1);
    assert multiset(RunTrace(g)) == multiset{TypeIdentifier, Generate} + multiset(Cycles(g - 1));
  }

  /** Every two consecutive nodes of a run are joined by an edge of the graph. */
  lemma RunTraceEdges(g: nat)
    requires g >= 1
    ensures forall i :: 0 <= i < |RunTrace(g)| - 1 ==> Edge(RunTrace(g)[i], RunTrace(g)[i + 1])
  {
    RunTraceShape(g);
  }

  /**
    What a successful run ends with: `lnode` is "generate", the revision
    number exceeds the cap, `count` grew by one per executed node, the draft
    is a record of `DND_MAP[dnd_type]` that conforms to it, and the input
    keys are untouched.
  */
  lemma FinalState(s0: AgentState, typeAnswer: Object, drafts: nat -> Object, critiques: nat -> string)
    requires RunSucceeds(s0, typeAnswer, drafts)
    ensures var f := StateAfter(s0, typeAnswer, drafts, critiques, RunLength(s0), false);
      f.lnode == Some(Generate)
      && f.revisionNumber.value > f.maxRevisions.value
      && f.count == s0.count + |RunTrace(RunLength(s0))|
      && f.count == s0.count + multiset(RunTrace(RunLength(s0)))[TypeIdentifier]
                    + multiset(RunTrace(RunLength(s0)))[Generate] + multiset(RunTrace(RunLength(s0)))[Reflect]
      && f.dndType.value in DndMap
      && SchemaOf(f.draft.value) == DndMap[f.dndType.value]
      && Conforms(Dump(f.draft.value), DndMap[f.dndType.value])
      && f.description == s0.description && f.dndSystem == s0.dndSystem && f.maxRevisions == s0.maxRevisions
  {
    var g := RunLength(s0);
    var t := ValidateDnDType(typeAnswer).value;
    var schema := SchemaFor(t);
    RunTraceShape(g);
    RunTraceCount(g);
    assert Validate(schema, drafts(g - 1)).Success?;
    DumpValidate(schema, drafts(g - 1));
    DumpConforms(Validate(schema, drafts(g - 1)).value);
  }

  /** `type_identifier` writes only `dnd_type`, `lnode` and `count`. */
  lemma TypeIdentifierFrame(s: AgentState, answer: Object)
    requires TypeIdentifierNode(s, answer).Success?
    ensures var n := Merge(s, TypeIdentifierNode(s, answer).value);
      n.(dndType := s.dndType, lnode := s.lnode, count := s.count) == s && n.count == s.count + 1
  {
  }

  /** `generate` writes only `draft`, `revision_number`, `lnode` and `count`, and raises the revision number by one. */
  lemma GenerationFrame(s: AgentState, answer: Object)
    requires GenerationNode(s, answer).Success?
    ensures var n := Merge(s, GenerationNode(s, answer).value);
      n.(draft := s.draft, revisionNumber := s.revisionNumber, lnode := s.lnode, count := s.count) == s
      && n.count == s.count + 1
      && n.revisionNumber == Some(PreviousRevision(s) + 1)
  {
  }

  /** `reflect` writes only `critique`, `lnode` and `count`: the draft and the revision number are kept. */
  lemma ReflectionFrame(s: AgentState, critique: string)
    requires ReflectionNode(s, critique).Success?
    ensures var n := Merge(s, ReflectionNode(s, critique).value);
      n.(critique := s.critique, lnode := s.lnode, count := s.count) == s && n.count == s.count + 1
  {
  }

  /**
    The node names are pairwise distinct, so the model's `lnode`, which holds
    the node, determines the string the source writes there, and back.
  */
  lemma NodeNamesDistinct()
    ensures forall a, b :: NodeName(a) == NodeName(b) ==> a == b
  {
  }

  /** The state keys are pairwise distinct strings, so a channel stands for exactly one `AgentState` key. */
  lemma ChannelNamesDistinct()
    ensures forall a, b :: ChannelName(a) == ChannelName(b) ==> a == b
  {
  }

  /** The generation prompt does not read `critique`: the node's result does not depend on it. */
  lemma GenerationIgnoresCritique(s: AgentState, answer: Object, critique: Option<string>)
    ensures GenerationNode(s.(critique := critique), answer) == GenerationNode(s, answer)
  {
  }

  /** Starting from `revision_number = 0` with cap M, a run performs M + 1 generations and M reflections. */
  lemma StartAtZero(s0: AgentState, m: nat)
    requires s0.revisionNumber == Some(0) && s0.maxRevisions == Some(m)
    ensures RunLength(s0) == m + 1
    ensures multiset(RunTrace(RunLength(s0)))[Generate] == m + 1
    ensures multiset(RunTrace(RunLength(s0)))[Reflect] == m
  {
    RunTraceCount(m + 1);
  }

  /** With `max_revisions = 0` and start 0, the stop check fires after the first generation, before any reflection. */
  lemma NoRevisions(s0: AgentState)
    requires s0.revisionNumber == Some(0) && s0.maxRevisions == Some(0)
    ensures RunLength(s0) == 1
    ensures RunTrace(RunLength(s0)) == [TypeIdentifier, Generate]
  {
  }

  /**
    Without a `revision_number` in the input, the first generation reads 1,
    so for a cap of at least 1 a run does one generation fewer than the same
    run started from 0.
  */
  lemma MissingStartRevision(s0: AgentState, m: int)
    requires s0.revisionNumber.None? && s0.maxRevisions == Some(m) && m >= 1
    ensures RunLength(s0) + 1 == RunLength(s0.(revisionNumber := Some(0)))
    ensures RunLength(s0) == m
  {
  }

  /** The input `main` passes to `invoke`. */
  const MainInput: Update :=
    NoUpdate.(description := Some("A metal scimitar that is engulfed by flame."), dndSystem := Some("D&D 5e"),
              maxRevisions := Some(1), revisionNumber := Some(0))

  /** `main`'s run: generate, reflect, generate, with `count` ending at 4. */
  lemma MainRun()
    ensures RunLength(Merge(EmptyState, MainInput)) == 2
    ensures RunTrace(2) == [TypeIdentifier, Generate, Reflect, Generate]
    ensures |RunTrace(2)| == 4
  {
    assert Cycles(1) == [Reflect, Generate];
  }
}
