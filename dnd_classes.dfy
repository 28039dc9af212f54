/**
  The record shapes of dnd_classes.py and the table DND_MAP.

  Each pydantic model becomes two things:
  - a typed Dafny datatype (DnDAny, DnDItem, DnDSpell, DnDEffect), where a
    field declared `Optional[X]` without a default is an `Option<X>`: the key
    must be present, its value may be null;
  - a row of the field table `Field`, which gives for every schema each
    field's name, its kind and whether it is nullable.
  `Validate` models pydantic's `model_validate` on a JSON-like object and
  `Dump` models `model_dump`; the lemmas at the end tie the typed shapes to
  the table and prove the two directions of the round trip.
*/
module DndClasses {
  import opened Wrappers

  // ---------------------------------------------------------------------
  // Literal enumerations
  // ---------------------------------------------------------------------

  /** `DnDType.type`: Literal['Magic Item', 'Spell', 'Regular Item', 'Creature', 'Other'] */
  datatype EntityType = MagicItem | Spell | RegularItem | Creature | Other

  function TypeName(t: EntityType): string {
    match t
    case MagicItem => "Magic Item"
    case Spell => "Spell"
    case RegularItem => "Regular Item"
    case Creature => "Creature"
    case Other => "Other"
  }

  const TypeNames: seq<string> := ["Magic Item", "Spell", "Regular Item", "Creature", "Other"]

  /** Literal validation: the entity type spelled `s`, if `s` is one of the five literals. */
  function ParseType(s: string): (r: Option<EntityType>)
    ensures r.Some? <==> s in TypeNames
    ensures forall t :: TypeName(t) == s ==> r == Some(t)
    ensures r.Some? ==> TypeName(r.value) == s
  {
    if s == "Magic Item" then Some(MagicItem)
    else if s == "Spell" then Some(Spell)
    else if s == "Regular Item" then Some(RegularItem)
    else if s == "Creature" then Some(Creature)
    else if s == "Other" then Some(Other)
    else None
  }

  /** Literal['Strength', 'Dexterity', 'Constitution', 'Intelligence', 'Wisdom', 'Charisma'] */
  datatype Ability = Strength | Dexterity | Constitution | Intelligence | Wisdom | Charisma

  function AbilityName(a: Ability): string {
    match a
    case Strength => "Strength"
    case Dexterity => "Dexterity"
    case Constitution => "Constitution"
    case Intelligence => "Intelligence"
    case Wisdom => "Wisdom"
    case Charisma => "Charisma"
  }

  const AbilityNames: seq<string> := ["Strength", "Dexterity", "Constitution", "Intelligence", "Wisdom", "Charisma"]

  function ParseAbility(s: string): (r: Option<Ability>)
    ensures r.Some? <==> s in AbilityNames
    ensures forall a :: AbilityName(a) == s ==> r == Some(a)
    ensures r.Some? ==> AbilityName(r.value) == s
  {
    if s == "Strength" then Some(Strength)
    else if s == "Dexterity" then Some(Dexterity)
    else if s == "Constitution" then Some(Constitution)
    else if s == "Intelligence" then Some(Intelligence)
    else if s == "Wisdom" then Some(Wisdom)
    else if s == "Charisma" then Some(Charisma)
    else None
  }

  /** Literal['Verbal', 'Somatic', 'Material'] */
  datatype Component = Verbal | Somatic | Material

  function ComponentName(c: Component): string {
    match c
    case Verbal => "Verbal"
    case Somatic => "Somatic"
    case Material => "Material"
  }

  const ComponentNames: seq<string> := ["Verbal", "Somatic", "Material"]

  function ParseComponent(s: string): (r: Option<Component>)
    ensures r.Some? <==> s in ComponentNames
    ensures forall c :: ComponentName(c) == s ==> r == Some(c)
    ensures r.Some? ==> ComponentName(r.value) == s
  {
    if s == "Verbal" then Some(Verbal)
    else if s == "Somatic" then Some(Somatic)
    else if s == "Material" then Some(Material)
    else None
  }

  /** Literal['Evocation', 'Necromancy', 'Abjuration', 'Enchantment', 'Divination'] */
  datatype School = Evocation | Necromancy | Abjuration | Enchantment | Divination

  function SchoolName(m: School): string {
    match m
    case Evocation => "Evocation"
    case Necromancy => "Necromancy"
    case Abjuration => "Abjuration"
    case Enchantment => "Enchantment"
    case Divination => "Divination"
  }

  const SchoolNames: seq<string> := ["Evocation", "Necromancy", "Abjuration", "Enchantment", "Divination"]

  function ParseSchool(s: string): (r: Option<School>)
    ensures r.Some? <==> s in SchoolNames
    ensures forall m :: SchoolName(m) == s ==> r == Some(m)
    ensures r.Some? ==> SchoolName(r.value) == s
  {
    if s == "Evocation" then Some(Evocation)
    else if s == "Necromancy" then Some(Necromancy)
    else if s == "Abjuration" then Some(Abjuration)
    else if s == "Enchantment" then Some(Enchantment)
    else if s == "Divination" then Some(Divination)
    else None
  }

  // ---------------------------------------------------------------------
  // Typed record shapes (the pydantic models)
  // ---------------------------------------------------------------------

  datatype DnDAny = DnDAny(name: string, description: string)

  datatype DnDItem = DnDItem(
    name: string,
    damage: Option<string>,
    range: Option<int>,              // in feet
    savingThrow: Option<int>,
    savingThrowType: Option<Ability>,
    charges: Option<int>,
    rarity: string,
    effectDescription: Option<string>,
    flavourText: string)

  datatype DnDSpell = DnDSpell(
    name: string,
    damage: Option<string>,
    range: Option<int>,              // in feet
    savingThrowDc: Option<int>,
    savingThrowType: Option<Ability>,
    components: seq<Component>,
    materials: Option<seq<string>>,
    magicSchool: School,
    spellLevel: int,
    effectDescription: string,
    flavourText: string)

  datatype DnDEffect = DnDEffect(
    name: Option<string>,
    damage: Option<string>,
    range: Option<int>,              // in feet
    savingThrowDc: Option<int>,
    savingThrowType: Option<Ability>,
    effectDescription: string,
    flavourText: string)

  /** An instance of one of the four models. */
  datatype Record =
    | AnyRecord(any: DnDAny)
    | ItemRecord(item: DnDItem)
    | SpellRecord(spell: DnDSpell)
    | EffectRecord(effect: DnDEffect)

  /** The model classes themselves, as the values DND_MAP holds. */
  datatype Schema = AnySchema | ItemSchema | SpellSchema | EffectSchema

  function SchemaOf(r: Record): Schema {
    match r
    case AnyRecord(_) => AnySchema
    case ItemRecord(_) => ItemSchema
    case SpellRecord(_) => SpellSchema
    case EffectRecord(_) => EffectSchema
  }

  // ---------------------------------------------------------------------
  // The field table
  // ---------------------------------------------------------------------

  /**
    The field names used by the models. An object's keys are drawn from this
    vocabulary; any other key a backend might add is ignored by validation and
    is not represented.
  */
  datatype Key =
    | Name | Description | Damage | Range | SavingThrow | SavingThrowDc | SavingThrowType | Charges
    | Rarity | EffectDescription | FlavourText | Components | Materials | MagicSchool | SpellLevel | TypeKey

  /** The key as spelled in the Python models. */
  function KeyName(k: Key): string {
    match k
    case Name => "name"
    case Description => "description"
    case Damage => "damage"
    case Range => "range"
    case SavingThrow => "saving_throw"
    case SavingThrowDc => "saving_throw_dc"
    case SavingThrowType => "saving_throw_type"
    case Charges => "charges"
    case Rarity => "rarity"
    case EffectDescription => "effect_description"
    case FlavourText => "flavour_text"
    case Components => "components"
    case Materials => "materials"
    case MagicSchool => "magic_school"
    case SpellLevel => "spell_level"
    case TypeKey => "type"
  }

  /** The field names are pairwise distinct, so a key stands for exactly one declared field name. */
  lemma KeyNamesDistinct()
    ensures forall a, b :: KeyName(a) == KeyName(b) ==> a == b
  {
  }

  datatype Kind =
    | StrKind                               // str
    | IntKind                               // int
    | LiteralKind(allowed: seq<string>)     // Literal[...]
    | StrListKind                           // List[str]
    | LiteralListKind(allowed: seq<string>) // List[Literal[...]]

  /** A declared field: its kind, and whether it is `Optional[...]` (may hold null). */
  datatype FieldSpec = FieldSpec(kind: Kind, nullable: bool)

  function Required(kind: Kind): Option<FieldSpec> { Some(FieldSpec(kind, false)) }

  function Nullable(kind: Kind): Option<FieldSpec> { Some(FieldSpec(kind, true)) }

  /** The declaration of field `k` in model `s`, or None when `s` has no such field. */
  function Field(s: Schema, k: Key): Option<FieldSpec> {
    match s
    case AnySchema =>
      (match k
       case Name => Required(StrKind)
       case Description => Required(StrKind)
       case _ => None)
    case ItemSchema =>
      (match k
       case Name => Required(StrKind)
       case Damage => Nullable(StrKind)
       case Range => Nullable(IntKind)
       case SavingThrow => Nullable(IntKind)
       case SavingThrowType => Nullable(LiteralKind(AbilityNames))
       case Charges => Nullable(IntKind)
       case Rarity => Required(StrKind)
       case EffectDescription => Nullable(StrKind)
       case FlavourText => Required(StrKind)
       case _ => None)
    case SpellSchema =>
      (match k
       case Name => Required(StrKind)
       case Damage => Nullable(StrKind)
       case Range => Nullable(IntKind)
       case SavingThrowDc => Nullable(IntKind)
       case SavingThrowType => Nullable(LiteralKind(AbilityNames))
       case Components => Required(LiteralListKind(ComponentNames))
       case Materials => Nullable(StrListKind)
       case MagicSchool => Required(LiteralKind(SchoolNames))
       case SpellLevel => Required(IntKind)
       case EffectDescription => Required(StrKind)
       case FlavourText => Required(StrKind)
       case _ => None)
    case EffectSchema =>
      (match k
       case Name => Nullable(StrKind)
       case Damage => Nullable(StrKind)
       case Range => Nullable(IntKind)
       case SavingThrowDc => Nullable(IntKind)
       case SavingThrowType => Nullable(LiteralKind(AbilityNames))
       case EffectDescription => Required(StrKind)
       case FlavourText => Required(StrKind)
       case _ => None)
  }

  /** `k` is a field of `s` that must hold a non-null value. */
  predicate IsRequired(s: Schema, k: Key) {
    Field(s, k).Some? && !Field(s, k).value.nullable
  }

  /** `k` is a field of `s` that must be present but may hold null. */
  predicate IsNullable(s: Schema, k: Key) {
    Field(s, k).Some? && Field(s, k).value.nullable
  }

  // ---------------------------------------------------------------------
  // JSON-like objects and conformance
  // ---------------------------------------------------------------------

  /** The values a structured-output backend can place in a field. */
  datatype Value = JNull | JString(str: string) | JInt(num: int) | JArray(items: seq<Value>)

  type Object = map<Key, Value>

  predicate KindFits(v: Value, k: Kind) {
    match k
    case StrKind => v.JString?
    case IntKind => v.JInt?
    case LiteralKind(allowed) => v.JString? && v.str in allowed
    case StrListKind => v.JArray? && forall i :: 0 <= i < |v.items| ==> v.items[i].JString?
    case LiteralListKind(allowed) =>
      v.JArray? && forall i :: 0 <= i < |v.items| ==> v.items[i].JString? && v.items[i].str in allowed
  }

  /** Field `k` is present; null only if it is nullable, and otherwise of its kind. */
  predicate FieldOk(o: Object, k: Key, f: FieldSpec) {
    k in o && if o[k] == JNull then f.nullable else KindFits(o[k], f.kind)
  }

  /** `o` satisfies every declared field of `s` (keys outside the schema are ignored). */
  predicate Conforms(o: Object, s: Schema) {
    forall k :: Field(s, k).Some? ==> FieldOk(o, k, Field(s, k).value)
  }

  // ---------------------------------------------------------------------
  // Encoding (model_dump)
  // ---------------------------------------------------------------------

  function NullableStrValue(x: Option<string>): Value {
    match x
    case None => JNull
    case Some(s) => JString(s)
  }

  function NullableIntValue(x: Option<int>): Value {
    match x
    case None => JNull
    case Some(n) => JInt(n)
  }

  function NullableAbilityValue(x: Option<Ability>): Value {
    match x
    case None => JNull
    case Some(a) => JString(AbilityName(a))
  }

  function ComponentValues(cs: seq<Component>): seq<Value> {
    if cs == [] then [] else [JString(ComponentName(cs[0]))] + ComponentValues(cs[1..])
  }

  function StringValues(ss: seq<string>): seq<Value> {
    if ss == [] then [] else [JString(ss[0])] + StringValues(ss[1..])
  }

  function NullableStringsValue(x: Option<seq<string>>): Value {
    match x
    case None => JNull
    case Some(ss) => JArray(StringValues(ss))
  }

  /** `model_dump()`: one key per declared field, null for an absent optional value. */
  function Dump(r: Record): Object {
    match r
    case AnyRecord(a) =>
      map[Name := JString(a.name),
          Description := JString(a.description)]
    case ItemRecord(i) =>
      map[Name := JString(i.name),
          Damage := NullableStrValue(i.damage),
          Range := NullableIntValue(i.range),
          SavingThrow := NullableIntValue(i.savingThrow),
          SavingThrowType := NullableAbilityValue(i.savingThrowType),
          Charges := NullableIntValue(i.charges),
          Rarity := JString(i.rarity),
          EffectDescription := NullableStrValue(i.effectDescription),
          FlavourText := JString(i.flavourText)]
    case SpellRecord(s) =>
      map[Name := JString(s.name),
          Damage := NullableStrValue(s.damage),
          Range := NullableIntValue(s.range),
          SavingThrowDc := NullableIntValue(s.savingThrowDc),
          SavingThrowType := NullableAbilityValue(s.savingThrowType),
          Components := JArray(ComponentValues(s.components)),
          Materials := NullableStringsValue(s.materials),
          MagicSchool := JString(SchoolName(s.magicSchool)),
          SpellLevel := JInt(s.spellLevel),
          EffectDescription := JString(s.effectDescription),
          FlavourText := JString(s.flavourText)]
    case EffectRecord(e) =>
      map[Name := NullableStrValue(e.name),
          Damage := NullableStrValue(e.damage),
          Range := NullableIntValue(e.range),
          SavingThrowDc := NullableIntValue(e.savingThrowDc),
          SavingThrowType := NullableAbilityValue(e.savingThrowType),
          EffectDescription := JString(e.effectDescription),
          FlavourText := JString(e.flavourText)]
  }

  // ---------------------------------------------------------------------
  // Decoding (model_validate)
  // ---------------------------------------------------------------------

  /** Pydantic's two kinds of field error: "Field required" and a type or literal error. */
  datatype FieldError = Missing(field: Key) | Invalid(field: Key)

  function Lookup(o: Object, key: Key): (r: Result<Value, FieldError>)
    ensures r.Success? <==> key in o
    ensures r.Success? ==> r.value == o[key]
    ensures r.Failure? ==> r.error == Missing(key)
  {
    if key in o then Success(o[key]) else Failure(Missing(key))
  }

  function ParseComponents(items: seq<Value>): (r: Option<seq<Component>>)
    ensures r.Some? <==> forall i :: 0 <= i < |items| ==> items[i].JString? && items[i].str in ComponentNames
    ensures r.Some? ==> ComponentValues(r.value) == items
  {
    if items == [] then Some([])
    else if !items[0].JString? then None
    else match (ParseComponent(items[0].str), ParseComponents(items[1..]))
      case (Some(c), Some(rest)) =>
        assert items == [items[0]] + items[1..];
        Some([c] + rest)
      case _ => None
  }

  function ParseStrings(items: seq<Value>): (r: Option<seq<string>>)
    ensures r.Some? <==> forall i :: 0 <= i < |items| ==> items[i].JString?
    ensures r.Some? ==> StringValues(r.value) == items
  {
    if items == [] then Some([])
    else if !items[0].JString? then None
    else match ParseStrings(items[1..])
      case Some(rest) =>
        assert items == [items[0]] + items[1..];
        Some([items[0].str] + rest)
      case None => None
  }

  function RequiredStr(o: Object, key: Key): (r: Result<string, FieldError>)
    ensures r.Success? <==> FieldOk(o, key, FieldSpec(StrKind, false))
    ensures r.Success? ==> o[key] == JString(r.value)
    ensures r.Failure? ==> r.error.field == key
  {
    var v :- Lookup(o, key);
    if v.JString? then Success(v.str) else Failure(Invalid(key))
  }

  function RequiredInt(o: Object, key: Key): (r: Result<int, FieldError>)
    ensures r.Success? <==> FieldOk(o, key, FieldSpec(IntKind, false))
    ensures r.Success? ==> o[key] == JInt(r.value)
    ensures r.Failure? ==> r.error.field == key
  {
    var v :- Lookup(o, key);
    if v.JInt? then Success(v.num) else Failure(Invalid(key))
  }

  function NullableStr(o: Object, key: Key): (r: Result<Option<string>, FieldError>)
    ensures r.Success? <==> FieldOk(o, key, FieldSpec(StrKind, true))
    ensures r.Success? ==> o[key] == NullableStrValue(r.value)
    ensures r.Failure? ==> r.error.field == key
  {
    var v :- Lookup(o, key);
    match v
    case JNull => Success(None)
    case JString(s) => Success(Some(s))
    case _ => Failure(Invalid(key))
  }

  function NullableInt(o: Object, key: Key): (r: Result<Option<int>, FieldError>)
    ensures r.Success? <==> FieldOk(o, key, FieldSpec(IntKind, true))
    ensures r.Success? ==> o[key] == NullableIntValue(r.value)
    ensures r.Failure? ==> r.error.field == key
  {
    var v :- Lookup(o, key);
    match v
    case JNull => Success(None)
    case JInt(n) => Success(Some(n))
    case _ => Failure(Invalid(key))
  }

  function NullableAbility(o: Object, key: Key): (r: Result<Option<Ability>, FieldError>)
    ensures r.Success? <==> FieldOk(o, key, FieldSpec(LiteralKind(AbilityNames), true))
    ensures r.Success? ==> o[key] == NullableAbilityValue(r.value)
    ensures r.Failure? ==> r.error.field == key
  {
    var v :- Lookup(o, key);
    match v
    case JNull => Success(None)
    case JString(s) =>
      (match ParseAbility(s)
       case Some(a) => Success(Some(a))
       case None => Failure(Invalid(key)))
    case _ => Failure(Invalid(key))
  }

  function RequiredSchool(o: Object, key: Key): (r: Result<School, FieldError>)
    ensures r.Success? <==> FieldOk(o, key, FieldSpec(LiteralKind(SchoolNames), false))
    ensures r.Success? ==> o[key] == JString(SchoolName(r.value))
    ensures r.Failure? ==> r.error.field == key
  {
    var v :- Lookup(o, key);
    if !v.JString? then Failure(Invalid(key))
    else match ParseSchool(v.str)
      case Some(m) => Success(m)
      case None => Failure(Invalid(key))
  }

  function RequiredComponents(o: Object, key: Key): (r: Result<seq<Component>, FieldError>)
    ensures r.Success? <==> FieldOk(o, key, FieldSpec(LiteralListKind(ComponentNames), false))
    ensures r.Success? ==> o[key] == JArray(ComponentValues(r.value))
    ensures r.Failure? ==> r.error.field == key
  {
    var v :- Lookup(o, key);
    if !v.JArray? then Failure(Invalid(key))
    else match ParseComponents(v.items)
      case Some(cs) => Success(cs)
      case None => Failure(Invalid(key))
  }

  function NullableStrings(o: Object, key: Key): (r: Result<Option<seq<string>>, FieldError>)
    ensures r.Success? <==> FieldOk(o, key, FieldSpec(StrListKind, true))
    ensures r.Success? ==> o[key] == NullableStringsValue(r.value)
    ensures r.Failure? ==> r.error.field == key
  {
    var v :- Lookup(o, key);
    match v
    case JNull => Success(None)
    case JArray(items) =>
      (match ParseStrings(items)
       case Some(ss) => Success(Some(ss))
       case None => Failure(Invalid(key)))
    case _ => Failure(Invalid(key))
  }

  function ValidateAny(o: Object): Result<DnDAny, FieldError> {
    var name :- RequiredStr(o, Name);
    var description :- RequiredStr(o, Description);
    Success(DnDAny(name, description))
  }

  function ValidateItem(o: Object): Result<DnDItem, FieldError> {
    var name :- RequiredStr(o, Name);
    var damage :- NullableStr(o, Damage);
    var range :- NullableInt(o, Range);
    var savingThrow :- NullableInt(o, SavingThrow);
    var savingThrowType :- NullableAbility(o, SavingThrowType);
    var charges :- NullableInt(o, Charges);
    var rarity :- RequiredStr(o, Rarity);
    var effectDescription :- NullableStr(o, EffectDescription);
    var flavourText :- RequiredStr(o, FlavourText);
    Success(DnDItem(name, damage, range, savingThrow, savingThrowType, charges, rarity, effectDescription, flavourText))
  }

  function ValidateSpell(o: Object): Result<DnDSpell, FieldError> {
    var name :- RequiredStr(o, Name);
    var damage :- NullableStr(o, Damage);
    var range :- NullableInt(o, Range);
    var savingThrowDc :- NullableInt(o, SavingThrowDc);
    var savingThrowType :- NullableAbility(o, SavingThrowType);
    var components :- RequiredComponents(o, Components);
    var materials :- NullableStrings(o, Materials);
    var magicSchool :- RequiredSchool(o, MagicSchool);
    var spellLevel :- RequiredInt(o, SpellLevel);
    var effectDescription :- RequiredStr(o, EffectDescription);
    var flavourText :- RequiredStr(o, FlavourText);
    Success(DnDSpell(name, damage, range, savingThrowDc, savingThrowType, components, materials,
                     magicSchool, spellLevel, effectDescription, flavourText))
  }

  function ValidateEffect(o: Object): Result<DnDEffect, FieldError> {
    var name :- NullableStr(o, Name);
    var damage :- NullableStr(o, Damage);
    var range :- NullableInt(o, Range);
    var savingThrowDc :- NullableInt(o, SavingThrowDc);
    var savingThrowType :- NullableAbility(o, SavingThrowType);
    var effectDescription :- RequiredStr(o, EffectDescription);
    var flavourText :- RequiredStr(o, FlavourText);
    Success(DnDEffect(name, damage, range, savingThrowDc, savingThrowType, effectDescription, flavourText))
  }

  /** `model_validate`: the typed record, or the first failing field in declaration order. */
  function Validate(s: Schema, o: Object): Result<Record, FieldError> {
    match s
    case AnySchema => var a :- ValidateAny(o); Success(AnyRecord(a))
    case ItemSchema => var i :- ValidateItem(o); Success(ItemRecord(i))
    case SpellSchema => var p :- ValidateSpell(o); Success(SpellRecord(p))
    case EffectSchema => var e :- ValidateEffect(o); Success(EffectRecord(e))
  }

  /** Validation of the classifier's answer against the `DnDType` model. */
  function ValidateDnDType(o: Object): (r: Result<EntityType, FieldError>)
    ensures r.Success? <==> FieldOk(o, TypeKey, FieldSpec(LiteralKind(TypeNames), false))
    ensures r.Success? ==> o[TypeKey] == JString(TypeName(r.value))
    ensures r.Failure? ==> r.error.field == TypeKey
  {
    var v :- Lookup(o, TypeKey);
    if !v.JString? then Failure(Invalid(TypeKey))
    else match ParseType(v.str)
      case Some(t) => Success(t)
      case None => Failure(Invalid(TypeKey))
  }

  // ---------------------------------------------------------------------
  // DND_MAP
  // ---------------------------------------------------------------------

  const DndMap: map<string, Schema> :=
    map["Magic Item" := ItemSchema,
        "Spell" := SpellSchema,
        "Regular Item" := ItemSchema,
        "Creature" := AnySchema,
        "Other" := AnySchema]

  /** Lookup in DND_MAP by a classified type: it never misses. */
  function SchemaFor(t: EntityType): (s: Schema)
    ensures TypeName(t) in DndMap && DndMap[TypeName(t)] == s
  {
    DndMap[TypeName(t)]
  }

  // ---------------------------------------------------------------------
  // Properties of DND_MAP
  // ---------------------------------------------------------------------

  /** The keys of DND_MAP are exactly the five `DnDType` literals, and no key maps to DnDEffect. */
  lemma DndMapKeys()
    ensures forall k :: k in DndMap <==> ParseType(k).Some?
    ensures forall k :: k in DndMap ==> DndMap[k] != EffectSchema
  {
  }

  /** Both item types share DnDItem, Spell has DnDSpell, Creature and Other share DnDAny. */
  lemma SchemaForTypes(t: EntityType)
    ensures SchemaFor(t) == ItemSchema <==> t == MagicItem || t == RegularItem
    ensures SchemaFor(t) == SpellSchema <==> t == Spell
    ensures SchemaFor(t) == AnySchema <==> t == Creature || t == Other
  {
  }

  // ---------------------------------------------------------------------
  // Round trips of the list encodings
  // ---------------------------------------------------------------------

  lemma {:induction false} ComponentsRoundTrip(cs: seq<Component>)
    ensures ParseComponents(ComponentValues(cs)) == Some(cs)
  {
    if cs != [] {
      ComponentsRoundTrip(cs[1..]);
      assert cs == [cs[0]] + cs[1..];
    }
  }

  lemma {:induction false} StringsRoundTrip(ss: seq<string>)
    ensures ParseStrings(StringValues(ss)) == Some(ss)
  {
    if ss != [] {
      StringsRoundTrip(ss[1..]);
      assert ss == [ss[0]] + ss[1..];
    }
  }

  /** A conforming object satisfies each declared field on its own. */
  lemma ConformsField(o: Object, s: Schema, k: Key)
    requires Conforms(o, s) && Field(s, k).Some?
    ensures FieldOk(o, k, Field(s, k).value)
  {
  }

  // ---------------------------------------------------------------------
  // Round trips of the field encodings
  // ---------------------------------------------------------------------

  /** `RequiredStr` reads back the value that `model_dump` wrote for the field. */
  lemma RequiredStrInverse(o: Object, k: Key, x: string)
    requires k in o && o[k] == JString(x)
    ensures RequiredStr(o, k) == Success(x)
  {
  }

  /** `NullableStr` reads back the value that `model_dump` wrote for the field. */
  lemma NullableStrInverse(o: Object, k: Key, x: Option<string>)
    requires k in o && o[k] == NullableStrValue(x)
    ensures NullableStr(o, k) == Success(x)
  {
  }

  /** `NullableInt` reads back the value that `model_dump` wrote for the field. */
  lemma NullableIntInverse(o: Object, k: Key, x: Option<int>)
    requires k in o && o[k] == NullableIntValue(x)
    ensures NullableInt(o, k) == Success(x)
  {
  }

  /** `NullableAbility` reads back the value that `model_dump` wrote for the field. */
  lemma NullableAbilityInverse(o: Object, k: Key, x: Option<Ability>)
    requires k in o && o[k] == NullableAbilityValue(x)
    ensures NullableAbility(o, k) == Success(x)
  {
  }

  /** `RequiredComponents` reads back the value that `model_dump` wrote for the field. */
  lemma RequiredComponentsInverse(o: Object, k: Key, x: seq<Component>)
    requires k in o && o[k] == JArray(ComponentValues(x))
    ensures RequiredComponents(o, k) == Success(x)
  {
    ComponentsRoundTrip(x);
  }

  /** `NullableStrings` reads back the value that `model_dump` wrote for the field. */
  lemma NullableStringsInverse(o: Object, k: Key, x: Option<seq<string>>)
    requires k in o && o[k] == NullableStringsValue(x)
    ensures NullableStrings(o, k) == Success(x)
  {
    if x.Some? {
      StringsRoundTrip(x.value);
    }
  }

  /** `RequiredSchool` reads back the value that `model_dump` wrote for the field. */
  lemma RequiredSchoolInverse(o: Object, k: Key, x: School)
    requires k in o && o[k] == JString(SchoolName(x))
    ensures RequiredSchool(o, k) == Success(x)
  {
  }

  /** `RequiredInt` reads back the value that `model_dump` wrote for the field. */
  lemma RequiredIntInverse(o: Object, k: Key, x: int)
    requires k in o && o[k] == JInt(x)
    ensures RequiredInt(o, k) == Success(x)
  {
  }

  // ---------------------------------------------------------------------
  // DnDAny
  // ---------------------------------------------------------------------

  /** The required and the nullable fields of DnDAny. */
  lemma AnyFields()
    ensures forall k :: IsRequired(AnySchema, k) <==> k == Name || k == Description
    ensures forall k :: IsNullable(AnySchema, k) <==> false
  {
  }

  /** A successful validation read every field, and the record holds what was read. */
  lemma AnyFieldsOf(o: Object)
    requires ValidateAny(o).Success?
    ensures RequiredStr(o, Name).Success? && RequiredStr(o, Description).Success?
    ensures ValidateAny(o).value == DnDAny(
      RequiredStr(o, Name).value,
      RequiredStr(o, Description).value)
  {
  }

  /** Conversely, when every field reads as the record's value, validation gives the record. */
  lemma AnyOf(o: Object, a: DnDAny)
    requires RequiredStr(o, Name) == Success(a.name)
    requires RequiredStr(o, Description) == Success(a.description)
    ensures ValidateAny(o) == Success(a)
  {
  }

  lemma AnyConformsValid(o: Object)
    requires Conforms(o, AnySchema)
    ensures ValidateAny(o).Success?
  {
    ConformsField(o, AnySchema, Name);
    ConformsField(o, AnySchema, Description);
    AnyOf(o, DnDAny(RequiredStr(o, Name).value, RequiredStr(o, Description).value));
  }

  lemma AnyValidConforms(o: Object)
    requires ValidateAny(o).Success?
    ensures Conforms(o, AnySchema)
  {
    AnyFieldsOf(o);
    forall k | Field(AnySchema, k).Some?
      ensures FieldOk(o, k, Field(AnySchema, k).value)
    {
      match k
      case Name =>
      case Description =>
      case _ =>
    }
  }

  /** Validation against DnDAny succeeds exactly on the conforming objects. */
  lemma AnyConforms(o: Object)
    ensures ValidateAny(o).Success? <==> Conforms(o, AnySchema)
  {
    if Conforms(o, AnySchema) {
      AnyConformsValid(o);
    }
    if ValidateAny(o).Success? {
      AnyValidConforms(o);
    }
  }

  /** A failed validation names a declared field of DnDAny that the object does not satisfy. */
  lemma AnyFailure(o: Object)
    requires ValidateAny(o).Failure?
    ensures Field(AnySchema, ValidateAny(o).error.field).Some?
    ensures !FieldOk(o, ValidateAny(o).error.field, Field(AnySchema, ValidateAny(o).error.field).value)
  {
    if RequiredStr(o, Name).Failure? {
      assert ValidateAny(o) == Failure(RequiredStr(o, Name).error);
    } else if RequiredStr(o, Description).Failure? {
      assert ValidateAny(o) == Failure(RequiredStr(o, Description).error);
    } else {
      assert false;
    }
  }

  /** `model_dump` of a DnDAny writes exactly its declared fields. */
  lemma AnyDumpKeys(a: DnDAny)
    ensures forall k :: k in Dump(AnyRecord(a)) <==> Field(AnySchema, k).Some?
  {
  }

  /** The value `model_dump` writes for each field of a DnDAny. */
  lemma AnyDumpValues(a: DnDAny)
    ensures Name in Dump(AnyRecord(a)) && Dump(AnyRecord(a))[Name] == JString(a.name)
    ensures Description in Dump(AnyRecord(a)) && Dump(AnyRecord(a))[Description] == JString(a.description)
  {
  }

  /** `model_validate(model_dump(x)) == x` for DnDAny. */
  lemma AnyDump(a: DnDAny)
    ensures ValidateAny(Dump(AnyRecord(a))) == Success(a)
  {
    var o := Dump(AnyRecord(a));
    AnyDumpValues(a);
    RequiredStrInverse(o, Name, a.name);
    RequiredStrInverse(o, Description, a.description);
    AnyOf(o, a);
  }

  lemma AnyDumpAgrees(o: Object)
    requires ValidateAny(o).Success?
    ensures forall k :: k in Dump(AnyRecord(ValidateAny(o).value)) ==> k in o && Dump(AnyRecord(ValidateAny(o).value))[k] == o[k]
  {
    var a := ValidateAny(o).value;
    AnyFieldsOf(o);
    AnyDumpKeys(a);
    AnyDumpValues(a);
    var d := Dump(AnyRecord(a));
    forall k | k in d
      ensures k in o && d[k] == o[k]
    {
      assert Field(AnySchema, k).Some?;
      match k
      case Name =>
      case Description =>
      case _ =>
    }
  }

  /** Dumping a validated DnDAny gives back the declared fields of the input object. */
  lemma AnyDumpValidate(o: Object)
    requires ValidateAny(o).Success?
    ensures forall k :: k in Dump(AnyRecord(ValidateAny(o).value)) <==> Field(AnySchema, k).Some?
    ensures forall k :: k in Dump(AnyRecord(ValidateAny(o).value)) ==> k in o && Dump(AnyRecord(ValidateAny(o).value))[k] == o[k]
  {
    AnyDumpKeys(ValidateAny(o).value);
    AnyDumpAgrees(o);
  }

  // ---------------------------------------------------------------------
  // DnDItem
  // ---------------------------------------------------------------------

  /** The required and the nullable fields of DnDItem. */
  lemma ItemFields()
    ensures forall k :: IsRequired(ItemSchema, k) <==> k == Name || k == Rarity || k == FlavourText
    ensures forall k :: IsNullable(ItemSchema, k) <==> k == Damage || k == Range || k == SavingThrow || k == SavingThrowType || k == Charges || k == EffectDescription
  {
  }

  /** A successful validation read every field, and the record holds what was read. */
  lemma ItemFieldsOf(o: Object)
    requires ValidateItem(o).Success?
    ensures RequiredStr(o, Name).Success? && NullableStr(o, Damage).Success?
    ensures NullableInt(o, Range).Success? && NullableInt(o, SavingThrow).Success?
    ensures NullableAbility(o, SavingThrowType).Success? && NullableInt(o, Charges).Success?
    ensures RequiredStr(o, Rarity).Success? && NullableStr(o, EffectDescription).Success?
    ensures RequiredStr(o, FlavourText).Success?
    ensures ValidateItem(o).value == DnDItem(
      RequiredStr(o, Name).value,
      NullableStr(o, Damage).value,
      NullableInt(o, Range).value,
      NullableInt(o, SavingThrow).value,
      NullableAbility(o, SavingThrowType).value,
      NullableInt(o, Charges).value,
      RequiredStr(o, Rarity).value,
      NullableStr(o, EffectDescription).value,
      RequiredStr(o, FlavourText).value)
  {
  }

  /** Conversely, when every field reads as the record's value, validation gives the record. */
  lemma ItemOf(o: Object, i: DnDItem)
    requires RequiredStr(o, Name) == Success(i.name)
    requires NullableStr(o, Damage) == Success(i.damage)
    requires NullableInt(o, Range) == Success(i.range)
    requires NullableInt(o, SavingThrow) == Success(i.savingThrow)
    requires NullableAbility(o, SavingThrowType) == Success(i.savingThrowType)
    requires NullableInt(o, Charges) == Success(i.charges)
    requires RequiredStr(o, Rarity) == Success(i.rarity)
    requires NullableStr(o, EffectDescription) == Success(i.effectDescription)
    requires RequiredStr(o, FlavourText) == Success(i.flavourText)
    ensures ValidateItem(o) == Success(i)
  {
  }

  lemma ItemConformsPart1(o: Object)
    requires Conforms(o, ItemSchema)
    ensures RequiredStr(o, Name).Success?
    ensures NullableStr(o, Damage).Success?
    ensures NullableInt(o, Range).Success?
  {
    ConformsField(o, ItemSchema, Name);
    ConformsField(o, ItemSchema, Damage);
    ConformsField(o, ItemSchema, Range);
  }

  lemma ItemConformsPart2(o: Object)
    requires Conforms(o, ItemSchema)
    ensures NullableInt(o, SavingThrow).Success?
    ensures NullableAbility(o, SavingThrowType).Success?
    ensures NullableInt(o, Charges).Success?
  {
    ConformsField(o, ItemSchema, SavingThrow);
    ConformsField(o, ItemSchema, SavingThrowType);
    ConformsField(o, ItemSchema, Charges);
  }

  lemma ItemConformsPart3(o: Object)
    requires Conforms(o, ItemSchema)
    ensures RequiredStr(o, Rarity).Success?
    ensures NullableStr(o, EffectDescription).Success?
    ensures RequiredStr(o, FlavourText).Success?
  {
    ConformsField(o, ItemSchema, Rarity);
    ConformsField(o, ItemSchema, EffectDescription);
    ConformsField(o, ItemSchema, FlavourText);
  }

  lemma ItemConformsValid(o: Object)
    requires Conforms(o, ItemSchema)
    ensures ValidateItem(o).Success?
  {
    ItemConformsPart1(o);
    ItemConformsPart2(o);
    ItemConformsPart3(o);
    ItemOf(o, DnDItem(RequiredStr(o, Name).value, NullableStr(o, Damage).value, NullableInt(o, Range).value, NullableInt(o, SavingThrow).value, NullableAbility(o, SavingThrowType).value, NullableInt(o, Charges).value, RequiredStr(o, Rarity).value, NullableStr(o, EffectDescription).value, RequiredStr(o, FlavourText).value));
  }

  lemma ItemValidConforms(o: Object)
    requires ValidateItem(o).Success?
    ensures Conforms(o, ItemSchema)
  {
    ItemFieldsOf(o);
    forall k | Field(ItemSchema, k).Some?
      ensures FieldOk(o, k, Field(ItemSchema, k).value)
    {
      match k
      case Name =>
      case Damage =>
      case Range =>
      case SavingThrow =>
      case SavingThrowType =>
      case Charges =>
      case Rarity =>
      case EffectDescription =>
      case FlavourText =>
      case _ =>
    }
  }

  /** Validation against DnDItem succeeds exactly on the conforming objects. */
  lemma ItemConforms(o: Object)
    ensures ValidateItem(o).Success? <==> Conforms(o, ItemSchema)
  {
    if Conforms(o, ItemSchema) {
      ItemConformsValid(o);
    }
    if ValidateItem(o).Success? {
      ItemValidConforms(o);
    }
  }

  lemma ItemFailurePart1(o: Object)
    requires ValidateItem(o).Failure?
    requires !(RequiredStr(o, Name).Success? && NullableStr(o, Damage).Success?)
    ensures Field(ItemSchema, ValidateItem(o).error.field).Some?
    ensures !FieldOk(o, ValidateItem(o).error.field, Field(ItemSchema, ValidateItem(o).error.field).value)
  {
    if RequiredStr(o, Name).Failure? {
      assert ValidateItem(o) == Failure(RequiredStr(o, Name).error);
    } else if NullableStr(o, Damage).Failure? {
      assert ValidateItem(o) == Failure(NullableStr(o, Damage).error);
    }
  }

  lemma ItemFailurePart2(o: Object)
    requires ValidateItem(o).Failure?
    requires RequiredStr(o, Name).Success?
    requires NullableStr(o, Damage).Success?
    requires !(NullableInt(o, Range).Success? && NullableInt(o, SavingThrow).Success?)
    ensures Field(ItemSchema, ValidateItem(o).error.field).Some?
    ensures !FieldOk(o, ValidateItem(o).error.field, Field(ItemSchema, ValidateItem(o).error.field).value)
  {
    if NullableInt(o, Range).Failure? {
      assert ValidateItem(o) == Failure(NullableInt(o, Range).error);
    } else if NullableInt(o, SavingThrow).Failure? {
      assert ValidateItem(o) == Failure(NullableInt(o, SavingThrow).error);
    }
  }

  lemma ItemFailurePart3(o: Object)
    requires ValidateItem(o).Failure?
    requires RequiredStr(o, Name).Success?
    requires NullableStr(o, Damage).Success?
    requires NullableInt(o, Range).Success?
    requires NullableInt(o, SavingThrow).Success?
    requires !(NullableAbility(o, SavingThrowType).Success? && NullableInt(o, Charges).Success?)
    ensures Field(ItemSchema, ValidateItem(o).error.field).Some?
    ensures !FieldOk(o, ValidateItem(o).error.field, Field(ItemSchema, ValidateItem(o).error.field).value)
  {
    if NullableAbility(o, SavingThrowType).Failure? {
      assert ValidateItem(o) == Failure(NullableAbility(o, SavingThrowType).error);
    } else if NullableInt(o, Charges).Failure? {
      assert ValidateItem(o) == Failure(NullableInt(o, Charges).error);
    }
  }

  lemma ItemFailurePart4(o: Object)
    requires ValidateItem(o).Failure?
    requires RequiredStr(o, Name).Success?
    requires NullableStr(o, Damage).Success?
    requires NullableInt(o, Range).Success?
    requires NullableInt(o, SavingThrow).Success?
    requires NullableAbility(o, SavingThrowType).Success?
    requires NullableInt(o, Charges).Success?
    requires !(RequiredStr(o, Rarity).Success? && NullableStr(o, EffectDescription).Success?)
    ensures Field(ItemSchema, ValidateItem(o).error.field).Some?
    ensures !FieldOk(o, ValidateItem(o).error.field, Field(ItemSchema, ValidateItem(o).error.field).value)
  {
    if RequiredStr(o, Rarity).Failure? {
      assert ValidateItem(o) == Failure(RequiredStr(o, Rarity).error);
    } else if NullableStr(o, EffectDescription).Failure? {
      assert ValidateItem(o) == Failure(NullableStr(o, EffectDescription).error);
    }
  }

  lemma ItemFailurePart5(o: Object)
    requires ValidateItem(o).Failure?
    requires RequiredStr(o, Name).Success?
    requires NullableStr(o, Damage).Success?
    requires NullableInt(o, Range).Success?
    requires NullableInt(o, SavingThrow).Success?
    requires NullableAbility(o, SavingThrowType).Success?
    requires NullableInt(o, Charges).Success?
    requires RequiredStr(o, Rarity).Success?
    requires NullableStr(o, EffectDescription).Success?
    ensures Field(ItemSchema, ValidateItem(o).error.field).Some?
    ensures !FieldOk(o, ValidateItem(o).error.field, Field(ItemSchema, ValidateItem(o).error.field).value)
  {
    if RequiredStr(o, FlavourText).Failure? {
      assert ValidateItem(o) == Failure(RequiredStr(o, FlavourText).error);
    } else {
      assert false;
    }
  }

  /** A failed validation names a declared field of DnDItem that the object does not satisfy. */
  lemma ItemFailure(o: Object)
    requires ValidateItem(o).Failure?
    ensures Field(ItemSchema, ValidateItem(o).error.field).Some?
    ensures !FieldOk(o, ValidateItem(o).error.field, Field(ItemSchema, ValidateItem(o).error.field).value)
  {
    if !(RequiredStr(o, Name).Success? && NullableStr(o, Damage).Success?) {
      ItemFailurePart1(o);
    } else if !(NullableInt(o, Range).Success? && NullableInt(o, SavingThrow).Success?) {
      ItemFailurePart2(o);
    } else if !(NullableAbility(o, SavingThrowType).Success? && NullableInt(o, Charges).Success?) {
      ItemFailurePart3(o);
    } else if !(RequiredStr(o, Rarity).Success? && NullableStr(o, EffectDescription).Success?) {
      ItemFailurePart4(o);
    } else {
      ItemFailurePart5(o);
    }
  }

  /** `model_dump` of a DnDItem writes exactly its declared fields. */
  lemma ItemDumpKeys(i: DnDItem)
    ensures forall k :: k in Dump(ItemRecord(i)) <==> Field(ItemSchema, k).Some?
  {
  }

  /** The value `model_dump` writes for each field of a DnDItem. */
  lemma ItemDumpValues(i: DnDItem)
    ensures Name in Dump(ItemRecord(i)) && Dump(ItemRecord(i))[Name] == JString(i.name)
    ensures Damage in Dump(ItemRecord(i)) && Dump(ItemRecord(i))[Damage] == NullableStrValue(i.damage)
    ensures Range in Dump(ItemRecord(i)) && Dump(ItemRecord(i))[Range] == NullableIntValue(i.range)
    ensures SavingThrow in Dump(ItemRecord(i)) && Dump(ItemRecord(i))[SavingThrow] == NullableIntValue(i.savingThrow)
    ensures SavingThrowType in Dump(ItemRecord(i)) && Dump(ItemRecord(i))[SavingThrowType] == NullableAbilityValue(i.savingThrowType)
    ensures Charges in Dump(ItemRecord(i)) && Dump(ItemRecord(i))[Charges] == NullableIntValue(i.charges)
    ensures Rarity in Dump(ItemRecord(i)) && Dump(ItemRecord(i))[Rarity] == JString(i.rarity)
    ensures EffectDescription in Dump(ItemRecord(i)) && Dump(ItemRecord(i))[EffectDescription] == NullableStrValue(i.effectDescription)
    ensures FlavourText in Dump(ItemRecord(i)) && Dump(ItemRecord(i))[FlavourText] == JString(i.flavourText)
  {
  }

  /** `model_validate(model_dump(x)) == x` for DnDItem. */
  lemma ItemDump(i: DnDItem)
    ensures ValidateItem(Dump(ItemRecord(i))) == Success(i)
  {
    var o := Dump(ItemRecord(i));
    ItemDumpValues(i);
    RequiredStrInverse(o, Name, i.name);
    NullableStrInverse(o, Damage, i.damage);
    NullableIntInverse(o, Range, i.range);
    NullableIntInverse(o, SavingThrow, i.savingThrow);
    NullableAbilityInverse(o, SavingThrowType, i.savingThrowType);
    NullableIntInverse(o, Charges, i.charges);
    RequiredStrInverse(o, Rarity, i.rarity);
    NullableStrInverse(o, EffectDescription, i.effectDescription);
    RequiredStrInverse(o, FlavourText, i.flavourText);
    ItemOf(o, i);
  }

  lemma ItemDumpAgrees(o: Object)
    requires ValidateItem(o).Success?
    ensures forall k :: k in Dump(ItemRecord(ValidateItem(o).value)) ==> k in o && Dump(ItemRecord(ValidateItem(o).value))[k] == o[k]
  {
    var i := ValidateItem(o).value;
    ItemFieldsOf(o);
    ItemDumpKeys(i);
    ItemDumpValues(i);
    var d := Dump(ItemRecord(i));
    forall k | k in d
      ensures k in o && d[k] == o[k]
    {
      assert Field(ItemSchema, k).Some?;
      match k
      case Name =>
      case Damage =>
      case Range =>
      case SavingThrow =>
      case SavingThrowType =>
      case Charges =>
      case Rarity =>
      case EffectDescription =>
      case FlavourText =>
      case _ =>
    }
  }

  /** Dumping a validated DnDItem gives back the declared fields of the input object. */
  lemma ItemDumpValidate(o: Object)
    requires ValidateItem(o).Success?
    ensures forall k :: k in Dump(ItemRecord(ValidateItem(o).value)) <==> Field(ItemSchema, k).Some?
    ensures forall k :: k in Dump(ItemRecord(ValidateItem(o).value)) ==> k in o && Dump(ItemRecord(ValidateItem(o).value))[k] == o[k]
  {
    ItemDumpKeys(ValidateItem(o).value);
    ItemDumpAgrees(o);
  }

  // ---------------------------------------------------------------------
  // DnDSpell
  // ---------------------------------------------------------------------

  /** The required and the nullable fields of DnDSpell. */
  lemma SpellFields()
    ensures forall k :: IsRequired(SpellSchema, k) <==> k == Name || k == Components || k == MagicSchool || k == SpellLevel || k == EffectDescription || k == FlavourText
    ensures forall k :: IsNullable(SpellSchema, k) <==> k == Damage || k == Range || k == SavingThrowDc || k == SavingThrowType || k == Materials
  {
  }

  /** A successful validation read every field, and the record holds what was read. */
  lemma SpellFieldsOf(o: Object)
    requires ValidateSpell(o).Success?
    ensures RequiredStr(o, Name).Success? && NullableStr(o, Damage).Success?
    ensures NullableInt(o, Range).Success? && NullableInt(o, SavingThrowDc).Success?
    ensures NullableAbility(o, SavingThrowType).Success? && RequiredComponents(o, Components).Success?
    ensures NullableStrings(o, Materials).Success? && RequiredSchool(o, MagicSchool).Success?
    ensures RequiredInt(o, SpellLevel).Success? && RequiredStr(o, EffectDescription).Success?
    ensures RequiredStr(o, FlavourText).Success?
    ensures ValidateSpell(o).value == DnDSpell(
      RequiredStr(o, Name).value,
      NullableStr(o, Damage).value,
      NullableInt(o, Range).value,
      NullableInt(o, SavingThrowDc).value,
      NullableAbility(o, SavingThrowType).value,
      RequiredComponents(o, Components).value,
      NullableStrings(o, Materials).value,
      RequiredSchool(o, MagicSchool).value,
      RequiredInt(o, SpellLevel).value,
      RequiredStr(o, EffectDescription).value,
      RequiredStr(o, FlavourText).value)
  {
  }

  /** Conversely, when every field reads as the record's value, validation gives the record. */
  lemma SpellOf(o: Object, p: DnDSpell)
    requires RequiredStr(o, Name) == Success(p.name)
    requires NullableStr(o, Damage) == Success(p.damage)
    requires NullableInt(o, Range) == Success(p.range)
    requires NullableInt(o, SavingThrowDc) == Success(p.savingThrowDc)
    requires NullableAbility(o, SavingThrowType) == Success(p.savingThrowType)
    requires RequiredComponents(o, Components) == Success(p.components)
    requires NullableStrings(o, Materials) == Success(p.materials)
    requires RequiredSchool(o, MagicSchool) == Success(p.magicSchool)
    requires RequiredInt(o, SpellLevel) == Success(p.spellLevel)
    requires RequiredStr(o, EffectDescription) == Success(p.effectDescription)
    requires RequiredStr(o, FlavourText) == Success(p.flavourText)
    ensures ValidateSpell(o) == Success(p)
  {
  }

  lemma SpellConformsPart1(o: Object)
    requires Conforms(o, SpellSchema)
    ensures RequiredStr(o, Name).Success?
    ensures NullableStr(o, Damage).Success?
    ensures NullableInt(o, Range).Success?
  {
    ConformsField(o, SpellSchema, Name);
    ConformsField(o, SpellSchema, Damage);
    ConformsField(o, SpellSchema, Range);
  }

  lemma SpellConformsPart2(o: Object)
    requires Conforms(o, SpellSchema)
    ensures NullableInt(o, SavingThrowDc).Success?
    ensures NullableAbility(o, SavingThrowType).Success?
    ensures RequiredComponents(o, Components).Success?
  {
    ConformsField(o, SpellSchema, SavingThrowDc);
    ConformsField(o, SpellSchema, SavingThrowType);
    ConformsField(o, SpellSchema, Components);
  }

  lemma SpellConformsPart3(o: Object)
    requires Conforms(o, SpellSchema)
    ensures NullableStrings(o, Materials).Success?
    ensures RequiredSchool(o, MagicSchool).Success?
    ensures RequiredInt(o, SpellLevel).Success?
  {
    ConformsField(o, SpellSchema, Materials);
    ConformsField(o, SpellSchema, MagicSchool);
    ConformsField(o, SpellSchema, SpellLevel);
  }

  lemma SpellConformsPart4(o: Object)
    requires Conforms(o, SpellSchema)
    ensures RequiredStr(o, EffectDescription).Success?
    ensures RequiredStr(o, FlavourText).Success?
  {
    ConformsField(o, SpellSchema, EffectDescription);
    ConformsField(o, SpellSchema, FlavourText);
  }

  lemma SpellConformsValid(o: Object)
    requires Conforms(o, SpellSchema)
    ensures ValidateSpell(o).Success?
  {
    SpellConformsPart1(o);
    SpellConformsPart2(o);
    SpellConformsPart3(o);
    SpellConformsPart4(o);
    SpellOf(o, DnDSpell(RequiredStr(o, Name).value, NullableStr(o, Damage).value, NullableInt(o, Range).value, NullableInt(o, SavingThrowDc).value, NullableAbility(o, SavingThrowType).value, RequiredComponents(o, Components).value, NullableStrings(o, Materials).value, RequiredSchool(o, MagicSchool).value, RequiredInt(o, SpellLevel).value, RequiredStr(o, EffectDescription).value, RequiredStr(o, FlavourText).value));
  }

  lemma SpellValidConforms(o: Object)
    requires ValidateSpell(o).Success?
    ensures Conforms(o, SpellSchema)
  {
    SpellFieldsOf(o);
    forall k | Field(SpellSchema, k).Some?
      ensures FieldOk(o, k, Field(SpellSchema, k).value)
    {
      match k
      case Name =>
      case Damage =>
      case Range =>
      case SavingThrowDc =>
      case SavingThrowType =>
      case Components =>
      case Materials =>
      case MagicSchool =>
      case SpellLevel =>
      case EffectDescription =>
      case FlavourText =>
      case _ =>
    }
  }

  /** Validation against DnDSpell succeeds exactly on the conforming objects. */
  lemma SpellConforms(o: Object)
    ensures ValidateSpell(o).Success? <==> Conforms(o, SpellSchema)
  {
    if Conforms(o, SpellSchema) {
      SpellConformsValid(o);
    }
    if ValidateSpell(o).Success? {
      SpellValidConforms(o);
    }
  }

  lemma SpellFailurePart1(o: Object)
    requires ValidateSpell(o).Failure?
    requires !(RequiredStr(o, Name).Success? && NullableStr(o, Damage).Success?)
    ensures Field(SpellSchema, ValidateSpell(o).error.field).Some?
    ensures !FieldOk(o, ValidateSpell(o).error.field, Field(SpellSchema, ValidateSpell(o).error.field).value)
  {
    if RequiredStr(o, Name).Failure? {
      assert ValidateSpell(o) == Failure(RequiredStr(o, Name).error);
    } else if NullableStr(o, Damage).Failure? {
      assert ValidateSpell(o) == Failure(NullableStr(o, Damage).error);
    }
  }

  lemma SpellFailurePart2(o: Object)
    requires ValidateSpell(o).Failure?
    requires RequiredStr(o, Name).Success?
    requires NullableStr(o, Damage).Success?
    requires !(NullableInt(o, Range).Success? && NullableInt(o, SavingThrowDc).Success?)
    ensures Field(SpellSchema, ValidateSpell(o).error.field).Some?
    ensures !FieldOk(o, ValidateSpell(o).error.field, Field(SpellSchema, ValidateSpell(o).error.field).value)
  {
    if NullableInt(o, Range).Failure? {
      assert ValidateSpell(o) == Failure(NullableInt(o, Range).error);
    } else if NullableInt(o, SavingThrowDc).Failure? {
      assert ValidateSpell(o) == Failure(NullableInt(o, SavingThrowDc).error);
    }
  }

  lemma SpellFailurePart3(o: Object)
    requires ValidateSpell(o).Failure?
    requires RequiredStr(o, Name).Success?
    requires NullableStr(o, Damage).Success?
    requires NullableInt(o, Range).Success?
    requires NullableInt(o, SavingThrowDc).Success?
    requires !(NullableAbility(o, SavingThrowType).Success? && RequiredComponents(o, Components).Success?)
    ensures Field(SpellSchema, ValidateSpell(o).error.field).Some?
    ensures !FieldOk(o, ValidateSpell(o).error.field, Field(SpellSchema, ValidateSpell(o).error.field).value)
  {
    if NullableAbility(o, SavingThrowType).Failure? {
      assert ValidateSpell(o) == Failure(NullableAbility(o, SavingThrowType).error);
    } else if RequiredComponents(o, Components).Failure? {
      assert ValidateSpell(o) == Failure(RequiredComponents(o, Components).error);
    }
  }

  lemma SpellFailurePart4(o: Object)
    requires ValidateSpell(o).Failure?
    requires RequiredStr(o, Name).Success?
    requires NullableStr(o, Damage).Success?
    requires NullableInt(o, Range).Success?
    requires NullableInt(o, SavingThrowDc).Success?
    requires NullableAbility(o, SavingThrowType).Success?
    requires RequiredComponents(o, Components).Success?
    requires !(NullableStrings(o, Materials).Success? && RequiredSchool(o, MagicSchool).Success?)
    ensures Field(SpellSchema, ValidateSpell(o).error.field).Some?
    ensures !FieldOk(o, ValidateSpell(o).error.field, Field(SpellSchema, ValidateSpell(o).error.field).value)
  {
    if NullableStrings(o, Materials).Failure? {
      assert ValidateSpell(o) == Failure(NullableStrings(o, Materials).error);
    } else if RequiredSchool(o, MagicSchool).Failure? {
      assert ValidateSpell(o) == Failure(RequiredSchool(o, MagicSchool).error);
    }
  }

  lemma SpellFailurePart5(o: Object)
    requires ValidateSpell(o).Failure?
    requires RequiredStr(o, Name).Success?
    requires NullableStr(o, Damage).Success?
    requires NullableInt(o, Range).Success?
    requires NullableInt(o, SavingThrowDc).Success?
    requires NullableAbility(o, SavingThrowType).Success?
    requires RequiredComponents(o, Components).Success?
    requires NullableStrings(o, Materials).Success?
    requires RequiredSchool(o, MagicSchool).Success?
    requires !(RequiredInt(o, SpellLevel).Success? && RequiredStr(o, EffectDescription).Success?)
    ensures Field(SpellSchema, ValidateSpell(o).error.field).Some?
    ensures !FieldOk(o, ValidateSpell(o).error.field, Field(SpellSchema, ValidateSpell(o).error.field).value)
  {
    if RequiredInt(o, SpellLevel).Failure? {
      assert ValidateSpell(o) == Failure(RequiredInt(o, SpellLevel).error);
    } else if RequiredStr(o, EffectDescription).Failure? {
      assert ValidateSpell(o) == Failure(RequiredStr(o, EffectDescription).error);
    }
  }

  lemma SpellFailurePart6(o: Object)
    requires ValidateSpell(o).Failure?
    requires RequiredStr(o, Name).Success?
    requires NullableStr(o, Damage).Success?
    requires NullableInt(o, Range).Success?
    requires NullableInt(o, SavingThrowDc).Success?
    requires NullableAbility(o, SavingThrowType).Success?
    requires RequiredComponents(o, Components).Success?
    requires NullableStrings(o, Materials).Success?
    requires RequiredSchool(o, MagicSchool).Success?
    requires RequiredInt(o, SpellLevel).Success?
    requires RequiredStr(o, EffectDescription).Success?
    ensures Field(SpellSchema, ValidateSpell(o).error.field).Some?
    ensures !FieldOk(o, ValidateSpell(o).error.field, Field(SpellSchema, ValidateSpell(o).error.field).value)
  {
    if RequiredStr(o, FlavourText).Failure? {
      assert ValidateSpell(o) == Failure(RequiredStr(o, FlavourText).error);
    } else {
      assert false;
    }
  }

  /** A failed validation names a declared field of DnDSpell that the object does not satisfy. */
  lemma SpellFailure(o: Object)
    requires ValidateSpell(o).Failure?
    ensures Field(SpellSchema, ValidateSpell(o).error.field).Some?
    ensures !FieldOk(o, ValidateSpell(o).error.field, Field(SpellSchema, ValidateSpell(o).error.field).value)
  {
    if !(RequiredStr(o, Name).Success? && NullableStr(o, Damage).Success?) {
      SpellFailurePart1(o);
    } else if !(NullableInt(o, Range).Success? && NullableInt(o, SavingThrowDc).Success?) {
      SpellFailurePart2(o);
    } else if !(NullableAbility(o, SavingThrowType).Success? && RequiredComponents(o, Components).Success?) {
      SpellFailurePart3(o);
    } else if !(NullableStrings(o, Materials).Success? && RequiredSchool(o, MagicSchool).Success?) {
      SpellFailurePart4(o);
    } else if !(RequiredInt(o, SpellLevel).Success? && RequiredStr(o, EffectDescription).Success?) {
      SpellFailurePart5(o);
    } else {
      SpellFailurePart6(o);
    }
  }

  /** `model_dump` of a DnDSpell writes exactly its declared fields. */
  lemma SpellDumpKeys(p: DnDSpell)
    ensures forall k :: k in Dump(SpellRecord(p)) <==> Field(SpellSchema, k).Some?
  {
  }

  /** The value `model_dump` writes for each field of a DnDSpell. */
  lemma SpellDumpValues(p: DnDSpell)
    ensures Name in Dump(SpellRecord(p)) && Dump(SpellRecord(p))[Name] == JString(p.name)
    ensures Damage in Dump(SpellRecord(p)) && Dump(SpellRecord(p))[Damage] == NullableStrValue(p.damage)
    ensures Range in Dump(SpellRecord(p)) && Dump(SpellRecord(p))[Range] == NullableIntValue(p.range)
    ensures SavingThrowDc in Dump(SpellRecord(p)) && Dump(SpellRecord(p))[SavingThrowDc] == NullableIntValue(p.savingThrowDc)
    ensures SavingThrowType in Dump(SpellRecord(p)) && Dump(SpellRecord(p))[SavingThrowType] == NullableAbilityValue(p.savingThrowType)
    ensures Components in Dump(SpellRecord(p)) && Dump(SpellRecord(p))[Components] == JArray(ComponentValues(p.components))
    ensures Materials in Dump(SpellRecord(p)) && Dump(SpellRecord(p))[Materials] == NullableStringsValue(p.materials)
    ensures MagicSchool in Dump(SpellRecord(p)) && Dump(SpellRecord(p))[MagicSchool] == JString(SchoolName(p.magicSchool))
    ensures SpellLevel in Dump(SpellRecord(p)) && Dump(SpellRecord(p))[SpellLevel] == JInt(p.spellLevel)
    ensures EffectDescription in Dump(SpellRecord(p)) && Dump(SpellRecord(p))[EffectDescription] == JString(p.effectDescription)
    ensures FlavourText in Dump(SpellRecord(p)) && Dump(SpellRecord(p))[FlavourText] == JString(p.flavourText)
  {
  }

  /** `model_validate(model_dump(x)) == x` for DnDSpell. */
  lemma SpellDump(p: DnDSpell)
    ensures ValidateSpell(Dump(SpellRecord(p))) == Success(p)
  {
    var o := Dump(SpellRecord(p));
    SpellDumpValues(p);
    RequiredStrInverse(o, Name, p.name);
    NullableStrInverse(o, Damage, p.damage);
    NullableIntInverse(o, Range, p.range);
    NullableIntInverse(o, SavingThrowDc, p.savingThrowDc);
    NullableAbilityInverse(o, SavingThrowType, p.savingThrowType);
    RequiredComponentsInverse(o, Components, p.components);
    NullableStringsInverse(o, Materials, p.materials);
    RequiredSchoolInverse(o, MagicSchool, p.magicSchool);
    RequiredIntInverse(o, SpellLevel, p.spellLevel);
    RequiredStrInverse(o, EffectDescription, p.effectDescription);
    RequiredStrInverse(o, FlavourText, p.flavourText);
    SpellOf(o, p);
  }

  lemma SpellDumpAgrees(o: Object)
    requires ValidateSpell(o).Success?
    ensures forall k :: k in Dump(SpellRecord(ValidateSpell(o).value)) ==> k in o && Dump(SpellRecord(ValidateSpell(o).value))[k] == o[k]
  {
    var p := ValidateSpell(o).value;
    SpellFieldsOf(o);
    SpellDumpKeys(p);
    SpellDumpValues(p);
    var d := Dump(SpellRecord(p));
    forall k | k in d
      ensures k in o && d[k] == o[k]
    {
      assert Field(SpellSchema, k).Some?;
      match k
      case Name =>
      case Damage =>
      case Range =>
      case SavingThrowDc =>
      case SavingThrowType =>
      case Components =>
      case Materials =>
      case MagicSchool =>
      case SpellLevel =>
      case EffectDescription =>
      case FlavourText =>
      case _ =>
    }
  }

  /** Dumping a validated DnDSpell gives back the declared fields of the input object. */
  lemma SpellDumpValidate(o: Object)
    requires ValidateSpell(o).Success?
    ensures forall k :: k in Dump(SpellRecord(ValidateSpell(o).value)) <==> Field(SpellSchema, k).Some?
    ensures forall k :: k in Dump(SpellRecord(ValidateSpell(o).value)) ==> k in o && Dump(SpellRecord(ValidateSpell(o).value))[k] == o[k]
  {
    SpellDumpKeys(ValidateSpell(o).value);
    SpellDumpAgrees(o);
  }

  // ---------------------------------------------------------------------
  // DnDEffect
  // ---------------------------------------------------------------------

  /** The required and the nullable fields of DnDEffect. */
  lemma EffectFields()
    ensures forall k :: IsRequired(EffectSchema, k) <==> k == EffectDescription || k == FlavourText
    ensures forall k :: IsNullable(EffectSchema, k) <==> k == Name || k == Damage || k == Range || k == SavingThrowDc || k == SavingThrowType
  {
  }

  /** A successful validation read every field, and the record holds what was read. */
  lemma EffectFieldsOf(o: Object)
    requires ValidateEffect(o).Success?
    ensures NullableStr(o, Name).Success? && NullableStr(o, Damage).Success?
    ensures NullableInt(o, Range).Success? && NullableInt(o, SavingThrowDc).Success?
    ensures NullableAbility(o, SavingThrowType).Success? && RequiredStr(o, EffectDescription).Success?
    ensures RequiredStr(o, FlavourText).Success?
    ensures ValidateEffect(o).value == DnDEffect(
      NullableStr(o, Name).value,
      NullableStr(o, Damage).value,
      NullableInt(o, Range).value,
      NullableInt(o, SavingThrowDc).value,
      NullableAbility(o, SavingThrowType).value,
      RequiredStr(o, EffectDescription).value,
      RequiredStr(o, FlavourText).value)
  {
  }

  /** Conversely, when every field reads as the record's value, validation gives the record. */
  lemma EffectOf(o: Object, e: DnDEffect)
    requires NullableStr(o, Name) == Success(e.name)
    requires NullableStr(o, Damage) == Success(e.damage)
    requires NullableInt(o, Range) == Success(e.range)
    requires NullableInt(o, SavingThrowDc) == Success(e.savingThrowDc)
    requires NullableAbility(o, SavingThrowType) == Success(e.savingThrowType)
    requires RequiredStr(o, EffectDescription) == Success(e.effectDescription)
    requires RequiredStr(o, FlavourText) == Success(e.flavourText)
    ensures ValidateEffect(o) == Success(e)
  {
  }

  lemma EffectConformsPart1(o: Object)
    requires Conforms(o, EffectSchema)
    ensures NullableStr(o, Name).Success?
    ensures NullableStr(o, Damage).Success?
    ensures NullableInt(o, Range).Success?
  {
    ConformsField(o, EffectSchema, Name);
    ConformsField(o, EffectSchema, Damage);
    ConformsField(o, EffectSchema, Range);
  }

  lemma EffectConformsPart2(o: Object)
    requires Conforms(o, EffectSchema)
    ensures NullableInt(o, SavingThrowDc).Success?
    ensures NullableAbility(o, SavingThrowType).Success?
    ensures RequiredStr(o, EffectDescription).Success?
  {
    ConformsField(o, EffectSchema, SavingThrowDc);
    ConformsField(o, EffectSchema, SavingThrowType);
    ConformsField(o, EffectSchema, EffectDescription);
  }

  lemma EffectConformsPart3(o: Object)
    requires Conforms(o, EffectSchema)
    ensures RequiredStr(o, FlavourText).Success?
  {
    ConformsField(o, EffectSchema, FlavourText);
  }

  lemma EffectConformsValid(o: Object)
    requires Conforms(o, EffectSchema)
    ensures ValidateEffect(o).Success?
  {
    EffectConformsPart1(o);
    EffectConformsPart2(o);
    EffectConformsPart3(o);
    EffectOf(o, DnDEffect(NullableStr(o, Name).value, NullableStr(o, Damage).value, NullableInt(o, Range).value, NullableInt(o, SavingThrowDc).value, NullableAbility(o, SavingThrowType).value, RequiredStr(o, EffectDescription).value, RequiredStr(o, FlavourText).value));
  }

  lemma EffectValidConforms(o: Object)
    requires ValidateEffect(o).Success?
    ensures Conforms(o, EffectSchema)
  {
    EffectFieldsOf(o);
    forall k | Field(EffectSchema, k).Some?
      ensures FieldOk(o, k, Field(EffectSchema, k).value)
    {
      match k
      case Name =>
      case Damage =>
      case Range =>
      case SavingThrowDc =>
      case SavingThrowType =>
      case EffectDescription =>
      case FlavourText =>
      case _ =>
    }
  }

  /** Validation against DnDEffect succeeds exactly on the conforming objects. */
  lemma EffectConforms(o: Object)
    ensures ValidateEffect(o).Success? <==> Conforms(o, EffectSchema)
  {
    if Conforms(o, EffectSchema) {
      EffectConformsValid(o);
    }
    if ValidateEffect(o).Success? {
      EffectValidConforms(o);
    }
  }

  lemma EffectFailurePart1(o: Object)
    requires ValidateEffect(o).Failure?
    requires !(NullableStr(o, Name).Success? && NullableStr(o, Damage).Success?)
    ensures Field(EffectSchema, ValidateEffect(o).error.field).Some?
    ensures !FieldOk(o, ValidateEffect(o).error.field, Field(EffectSchema, ValidateEffect(o).error.field).value)
  {
    if NullableStr(o, Name).Failure? {
      assert ValidateEffect(o) == Failure(NullableStr(o, Name).error);
    } else if NullableStr(o, Damage).Failure? {
      assert ValidateEffect(o) == Failure(NullableStr(o, Damage).error);
    }
  }

  lemma EffectFailurePart2(o: Object)
    requires ValidateEffect(o).Failure?
    requires NullableStr(o, Name).Success?
    requires NullableStr(o, Damage).Success?
    requires !(NullableInt(o, Range).Success? && NullableInt(o, SavingThrowDc).Success?)
    ensures Field(EffectSchema, ValidateEffect(o).error.field).Some?
    ensures !FieldOk(o, ValidateEffect(o).error.field, Field(EffectSchema, ValidateEffect(o).error.field).value)
  {
    if NullableInt(o, Range).Failure? {
      assert ValidateEffect(o) == Failure(NullableInt(o, Range).error);
    } else if NullableInt(o, SavingThrowDc).Failure? {
      assert ValidateEffect(o) == Failure(NullableInt(o, SavingThrowDc).error);
    }
  }

  lemma EffectFailurePart3(o: Object)
    requires ValidateEffect(o).Failure?
    requires NullableStr(o, Name).Success?
    requires NullableStr(o, Damage).Success?
    requires NullableInt(o, Range).Success?
    requires NullableInt(o, SavingThrowDc).Success?
    requires !(NullableAbility(o, SavingThrowType).Success? && RequiredStr(o, EffectDescription).Success?)
    ensures Field(EffectSchema, ValidateEffect(o).error.field).Some?
    ensures !FieldOk(o, ValidateEffect(o).error.field, Field(EffectSchema, ValidateEffect(o).error.field).value)
  {
    if NullableAbility(o, SavingThrowType).Failure? {
      assert ValidateEffect(o) == Failure(NullableAbility(o, SavingThrowType).error);
    } else if RequiredStr(o, EffectDescription).Failure? {
      assert ValidateEffect(o) == Failure(RequiredStr(o, EffectDescription).error);
    }
  }

  lemma EffectFailurePart4(o: Object)
    requires ValidateEffect(o).Failure?
    requires NullableStr(o, Name).Success?
    requires NullableStr(o, Damage).Success?
    requires NullableInt(o, Range).Success?
    requires NullableInt(o, SavingThrowDc).Success?
    requires NullableAbility(o, SavingThrowType).Success?
    requires RequiredStr(o, EffectDescription).Success?
    ensures Field(EffectSchema, ValidateEffect(o).error.field).Some?
    ensures !FieldOk(o, ValidateEffect(o).error.field, Field(EffectSchema, ValidateEffect(o).error.field).value)
  {
    if RequiredStr(o, FlavourText).Failure? {
      assert ValidateEffect(o) == Failure(RequiredStr(o, FlavourText).error);
    } else {
      assert false;
    }
  }

  /** A failed validation names a declared field of DnDEffect that the object does not satisfy. */
  lemma EffectFailure(o: Object)
    requires ValidateEffect(o).Failure?
    ensures Field(EffectSchema, ValidateEffect(o).error.field).Some?
    ensures !FieldOk(o, ValidateEffect(o).error.field, Field(EffectSchema, ValidateEffect(o).error.field).value)
  {
    if !(NullableStr(o, Name).Success? && NullableStr(o, Damage).Success?) {
      EffectFailurePart1(o);
    } else if !(NullableInt(o, Range).Success? && NullableInt(o, SavingThrowDc).Success?) {
      EffectFailurePart2(o);
    } else if !(NullableAbility(o, SavingThrowType).Success? && RequiredStr(o, EffectDescription).Success?) {
      EffectFailurePart3(o);
    } else {
      EffectFailurePart4(o);
    }
  }

  /** `model_dump` of a DnDEffect writes exactly its declared fields. */
  lemma EffectDumpKeys(e: DnDEffect)
    ensures forall k :: k in Dump(EffectRecord(e)) <==> Field(EffectSchema, k).Some?
  {
  }

  /** The value `model_dump` writes for each field of a DnDEffect. */
  lemma EffectDumpValues(e: DnDEffect)
    ensures Name in Dump(EffectRecord(e)) && Dump(EffectRecord(e))[Name] == NullableStrValue(e.name)
    ensures Damage in Dump(EffectRecord(e)) && Dump(EffectRecord(e))[Damage] == NullableStrValue(e.damage)
    ensures Range in Dump(EffectRecord(e)) && Dump(EffectRecord(e))[Range] == NullableIntValue(e.range)
    ensures SavingThrowDc in Dump(EffectRecord(e)) && Dump(EffectRecord(e))[SavingThrowDc] == NullableIntValue(e.savingThrowDc)
    ensures SavingThrowType in Dump(EffectRecord(e)) && Dump(EffectRecord(e))[SavingThrowType] == NullableAbilityValue(e.savingThrowType)
    ensures EffectDescription in Dump(EffectRecord(e)) && Dump(EffectRecord(e))[EffectDescription] == JString(e.effectDescription)
    ensures FlavourText in Dump(EffectRecord(e)) && Dump(EffectRecord(e))[FlavourText] == JString(e.flavourText)
  {
  }

  /** `model_validate(model_dump(x)) == x` for DnDEffect. */
  lemma EffectDump(e: DnDEffect)
    ensures ValidateEffect(Dump(EffectRecord(e))) == Success(e)
  {
    var o := Dump(EffectRecord(e));
    EffectDumpValues(e);
    NullableStrInverse(o, Name, e.name);
    NullableStrInverse(o, Damage, e.damage);
    NullableIntInverse(o, Range, e.range);
    NullableIntInverse(o, SavingThrowDc, e.savingThrowDc);
    NullableAbilityInverse(o, SavingThrowType, e.savingThrowType);
    RequiredStrInverse(o, EffectDescription, e.effectDescription);
    RequiredStrInverse(o, FlavourText, e.flavourText);
    EffectOf(o, e);
  }

  lemma EffectDumpAgrees(o: Object)
    requires ValidateEffect(o).Success?
    ensures forall k :: k in Dump(EffectRecord(ValidateEffect(o).value)) ==> k in o && Dump(EffectRecord(ValidateEffect(o).value))[k] == o[k]
  {
    var e := ValidateEffect(o).value;
    EffectFieldsOf(o);
    EffectDumpKeys(e);
    EffectDumpValues(e);
    var d := Dump(EffectRecord(e));
    forall k | k in d
      ensures k in o && d[k] == o[k]
    {
      assert Field(EffectSchema, k).Some?;
      match k
      case Name =>
      case Damage =>
      case Range =>
      case SavingThrowDc =>
      case SavingThrowType =>
      case EffectDescription =>
      case FlavourText =>
      case _ =>
    }
  }

  /** Dumping a validated DnDEffect gives back the declared fields of the input object. */
  lemma EffectDumpValidate(o: Object)
    requires ValidateEffect(o).Success?
    ensures forall k :: k in Dump(EffectRecord(ValidateEffect(o).value)) <==> Field(EffectSchema, k).Some?
    ensures forall k :: k in Dump(EffectRecord(ValidateEffect(o).value)) ==> k in o && Dump(EffectRecord(ValidateEffect(o).value))[k] == o[k]
  {
    EffectDumpKeys(ValidateEffect(o).value);
    EffectDumpAgrees(o);
  }

  // ---------------------------------------------------------------------
  // The registry as a whole
  // ---------------------------------------------------------------------

  /** Validation succeeds exactly when the object satisfies every declared field of the schema. */
  lemma ValidateConforms(s: Schema, o: Object)
    ensures Validate(s, o).Success? <==> Conforms(o, s)
  {
    match s
    case AnySchema => AnyConforms(o);
    case ItemSchema => ItemConforms(o);
    case SpellSchema => SpellConforms(o);
    case EffectSchema => EffectConforms(o);
  }

  /** A failed validation names a declared field that the object does not satisfy. */
  lemma ValidateFailure(s: Schema, o: Object)
    requires Validate(s, o).Failure?
    ensures Field(s, Validate(s, o).error.field).Some?
    ensures !FieldOk(o, Validate(s, o).error.field, Field(s, Validate(s, o).error.field).value)
  {
    match s
    case AnySchema => AnyFailure(o);
    case ItemSchema => ItemFailure(o);
    case SpellSchema => SpellFailure(o);
    case EffectSchema => EffectFailure(o);
  }

  /** `model_validate(model_dump(r))` gives back `r`. */
  lemma ValidateDump(r: Record)
    ensures Validate(SchemaOf(r), Dump(r)) == Success(r)
  {
    match r
    case AnyRecord(a) => AnyDump(a);
    case ItemRecord(i) => ItemDump(i);
    case SpellRecord(p) => SpellDump(p);
    case EffectRecord(e) => EffectDump(e);
  }

  /** A validated record keeps exactly the schema's fields, with the values it was validated from. */
  lemma DumpValidate(s: Schema, o: Object)
    requires Validate(s, o).Success?
    ensures SchemaOf(Validate(s, o).value) == s
    ensures forall k :: k in Dump(Validate(s, o).value) <==> Field(s, k).Some?
    ensures forall k :: k in Dump(Validate(s, o).value) ==> k in o && Dump(Validate(s, o).value)[k] == o[k]
  {
    match s
    case AnySchema => AnyDumpValidate(o);
    case ItemSchema => ItemDumpValidate(o);
    case SpellSchema => SpellDumpValidate(o);
    case EffectSchema => EffectDumpValidate(o);
  }

  /** Every record dumps to exactly its schema's fields and satisfies the schema. */
  lemma DumpConforms(r: Record)
    ensures forall k :: k in Dump(r) <==> Field(SchemaOf(r), k).Some?
    ensures Conforms(Dump(r), SchemaOf(r))
  {
    ValidateDump(r);
    DumpValidate(SchemaOf(r), Dump(r));
    ValidateConforms(SchemaOf(r), Dump(r));
  }

  /** Nulling a required field makes validation fail. */
  lemma NullRejected(s: Schema, o: Object, k: Key)
    requires IsRequired(s, k)
    ensures Validate(s, o[k := JNull]).Failure?
  {
    ValidateConforms(s, o[k := JNull]);
    assert !FieldOk(o[k := JNull], k, Field(s, k).value);
  }

  /** Nulling a nullable field of a valid object keeps it valid. */
  lemma NullAccepted(s: Schema, o: Object, k: Key)
    requires Validate(s, o).Success?
    requires IsNullable(s, k)
    ensures Validate(s, o[k := JNull]).Success?
  {
    ValidateConforms(s, o);
    ValidateConforms(s, o[k := JNull]);
  }

  /** Where a model has `saving_throw_type`, a non-null value is one of the six abilities. */
  lemma SavingThrowTypeIsAbility(s: Schema, o: Object)
    requires Validate(s, o).Success?
    ensures Field(s, SavingThrowType).Some? <==> s != AnySchema
    ensures s != AnySchema ==>
      o[SavingThrowType] == JNull || (o[SavingThrowType].JString? && o[SavingThrowType].str in AbilityNames)
  {
    ValidateConforms(s, o);
    assert Field(s, SavingThrowType).Some? ==> FieldOk(o, SavingThrowType, Field(s, SavingThrowType).value);
  }

  /** A valid spell lists only Verbal, Somatic and Material components and names one of the five schools. */
  lemma SpellLiterals(o: Object)
    requires Validate(SpellSchema, o).Success?
    ensures o[Components].JArray?
    ensures forall i :: 0 <= i < |o[Components].items| ==>
      o[Components].items[i].JString? && o[Components].items[i].str in ComponentNames
    ensures o[MagicSchool].JString? && o[MagicSchool].str in SchoolNames
  {
    SpellFieldsOf(o);
  }
}
