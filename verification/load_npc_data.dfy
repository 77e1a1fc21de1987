/**
 * The NPC loader script: turning one decoded JSON record into the document
 * that is upserted into the `npcs` collection (id choice, slugging, trait
 * normalisation, field mapping, cleaning, outcome counts), and the per-file
 * planning that expands the Vuthausk file into a main record plus linked souls.
 *
 * The database is abstracted: `findOne` answers the lookup of a generated id,
 * `upsert` reports what `update_one(..., upsert=True)` did with a document,
 * and `uuid` stands for `str(uuid.uuid4())[:4]`.
 */
module LoadNpcData {
  import opened Wrappers
  import opened Text
  import opened PyJson

  const VuthauskFile: string := "vuthausk.json"
  const SoulsKey: string := "wyrmshard_collected_souls"
  /** Generated soul ids keep at most this many characters of the soul's name slug. */
  const SoulSlugMax: nat := 20

  type Doc = map<string, Json>

  /** What one `update_one(..., upsert=True)` call reported, or raised. */
  datatype Upsert =
    | Inserted                   // result.upserted_id is set
    | Matched(modified: bool)    // matched_count > 0
    | NoMatch                    // neither
    | DuplicateKey               // errors.DuplicateKeyError
    | DbError                    // any other errors.PyMongoError
    | Unexpected                 // any other Exception

  /** The collection as one call of the loader sees it. */
  datatype Env = Env(
    findOne: string -> Option<Doc>,
    upsert: Doc -> Upsert,
    uuid: string,
    repr: Json -> string)

  /** The `(inserted, updated, skipped, matched_no_change)` tuple. */
  datatype Counts = Counts(inserted: nat, updated: nat, skipped: nat, noChange: nat) {
    function Total(): nat {
      inserted + updated + skipped + noChange
    }
    function Plus(o: Counts): Counts {
      Counts(inserted + o.inserted, updated + o.updated, skipped + o.skipped, noChange + o.noChange)
    }
  }

  const SkipOne: Counts := Counts(0, 0, 1, 0)

  /** A record was handled: its counts, and the cleaned document written (None: no write). */
  datatype Processed = Processed(counts: Counts, written: Option<Doc>)

  /** An exception that `process_npc_data` does not catch (the loader stops). */
  type Raised = string

  // ---------------------------------------------------------------------------
  // Slugs and ids
  // ---------------------------------------------------------------------------

  /** `s.lower().replace(' ', '_').replace('-', '_')`. */
  function Slug(s: string): (r: string)
    ensures |r| == |s|
    ensures forall k :: 0 <= k < |r| ==> r[k] != ' ' && r[k] != '-' && !('A' <= r[k] <= 'Z')
    ensures forall k :: 0 <= k < |s| && s[k] != ' ' && s[k] != '-' ==> r[k] == LowerChar(s[k])
    ensures forall k :: 0 <= k < |s| && (s[k] == ' ' || s[k] == '-') ==> r[k] == '_'
  {
    ReplaceChar(ReplaceChar(Lower(s), ' ', '_'), '-', '_')
  }

  /** `s.rfind(c)`: the last index of `c`, or -1. */
  function RFind(s: string, c: char): (r: int)
    ensures -1 <= r < |s|
    ensures r >= 0 ==> s[r] == c
    ensures forall k :: r < k < |s| ==> s[k] != c
  {
    if s == [] then -1
    else if s[|s| - 1] == c then |s| - 1
    else RFind(s[..|s| - 1], c)
  }

  /**
   * `os.path.splitext(p)[0]` (POSIX): cut at the last dot of the last path
   * component, unless every character before that dot in the component is a dot.
   */
  function Stem(p: string): string {
    var sep := RFind(p, '/');
    var dot := RFind(p, '.');
    if dot > sep && exists k :: sep + 1 <= k < dot && p[k] != '.' then p[..dot] else p
  }

  predicate IsVuthauskFile(fileName: string) {
    Lower(fileName) == VuthauskFile
  }

  /** The id a record without a usable `_id`/`id` would get before collision handling. */
  function CandidateId(fileName: string, isSoul: bool, nameSlug: string): (r: string)
    ensures StartsWith(r, Slug(Stem(fileName)) + (if isSoul then "_soul_" else "_"))
    ensures var n := |Slug(Stem(fileName)) + (if isSoul then "_soul_" else "_")|;
      && (!isSoul || |nameSlug| <= SoulSlugMax ==> r[n..] == nameSlug)
      && (isSoul && |nameSlug| > SoulSlugMax ==> r[n..] == nameSlug[..SoulSlugMax])
  {
    var prefix := Slug(Stem(fileName)) + (if isSoul then "_soul_" else "_");
    var namePart := if isSoul && |nameSlug| > SoulSlugMax then nameSlug[..SoulSlugMax] else nameSlug;
    assert (prefix + namePart)[..|prefix|] == prefix;
    prefix + namePart
  }

  /**
   * Within one file, records of the same kind whose name slugs differ get
   * different candidates, except souls whose slugs agree on their first
   * twenty characters.
   */
  lemma CandidateIdSeparates(fileName: string, isSoul: bool, slug1: string, slug2: string)
    requires !isSoul || (|slug1| <= SoulSlugMax && |slug2| <= SoulSlugMax)
    ensures CandidateId(fileName, isSoul, slug1) == CandidateId(fileName, isSoul, slug2) <==> slug1 == slug2
  {
    var n := |Slug(Stem(fileName)) + (if isSoul then "_soul_" else "_")|;
    if CandidateId(fileName, isSoul, slug1) == CandidateId(fileName, isSoul, slug2) {
      assert CandidateId(fileName, isSoul, slug1)[n..] == CandidateId(fileName, isSoul, slug2)[n..];
    }
  }

  /** Souls whose name slugs share their first twenty characters get the same candidate. */
  lemma CandidateIdSoulCut(fileName: string, slug1: string, slug2: string)
    requires |slug1| > SoulSlugMax && |slug2| > SoulSlugMax
    requires slug1[..SoulSlugMax] == slug2[..SoulSlugMax]
    ensures CandidateId(fileName, true, slug1) == CandidateId(fileName, true, slug2)
  {
  }

  /** An existing document holds the candidate id under a different name. */
  predicate Collides(existing: Option<Doc>, raw: Doc) {
    existing.Some? && |existing.value| > 0 && !PyEq(Get(existing.value, "name"), Get(raw, "name"))
  }

  /**
   * The generated id: the candidate, with `_` and the uuid prefix appended
   * exactly when another record already owns the candidate.
   */
  function GeneratedId(fileName: string, isSoul: bool, nameSlug: string, raw: Doc, env: Env): (r: string)
    ensures var c := CandidateId(fileName, isSoul, nameSlug);
      && StartsWith(r, c)
      && (r == c <==> !Collides(env.findOne(c), raw))
      && (Collides(env.findOne(c), raw) ==> r[|c|..] == "_" + env.uuid)
    ensures |r| > 0
  {
    var c := CandidateId(fileName, isSoul, nameSlug);
    if Collides(env.findOne(c), raw) then c + "_" + env.uuid else c
  }

  /** Id priority: a truthy `_id`, then a truthy `id`, then a generated one. */
  function ChooseId(raw: Doc, fileName: string, isSoul: bool, nameSlug: string, env: Env): (r: Json)
    ensures Truthy(r)
    ensures "_id" in raw && Truthy(raw["_id"]) ==> r == raw["_id"]
    ensures !("_id" in raw && Truthy(raw["_id"])) && "id" in raw && Truthy(raw["id"]) ==> r == raw["id"]
    ensures !("_id" in raw && Truthy(raw["_id"])) && !("id" in raw && Truthy(raw["id"]))
      ==> r == JStr(GeneratedId(fileName, isSoul, nameSlug, raw, env))
  {
    if "_id" in raw && Truthy(raw["_id"]) then raw["_id"]
    else if "id" in raw && Truthy(raw["id"]) then raw["id"]
    else JStr(GeneratedId(fileName, isSoul, nameSlug, raw, env))
  }

  /** `v.get(k, default)` where `v` must be a dict (otherwise AttributeError). */
  function DictGet(v: Json, k: string, default: Json): Result<Json, Raised> {
    if v.JObj? then Success(GetOr(v.fields, k, default)) else Failure(GetOnNonDict)
  }

  const GetOnNonDict: Raised := "AttributeError: .get on a non-dict"

  /** `v.lower()` and the slug replacements, where `v` must be a string. */
  function SlugOf(v: Json): Result<string, Raised> {
    if v.JStr? then Success(Slug(v.s)) else Failure("AttributeError: .lower on a non-string")
  }

  /** The record is Vuthausk's own nested sheet (lines 28 and 85 of the loader). */
  predicate IsVuthauskSheet(raw: Doc, fileName: string, isSoul: bool) {
    IsVuthauskFile(fileName) && !isSoul && "character_details" in raw
  }

  /** The name slug used for id generation. */
  function NameSlugForId(raw: Doc, fileName: string, isSoul: bool): Result<string, Raised> {
    if IsVuthauskSheet(raw, fileName, isSoul) then
      var basic :- DictGet(raw["character_details"], "basic_information", JObj(map[]));
      var name :- DictGet(basic, "name", JStr("vuthausk"));
      SlugOf(name)
    else
      SlugOf(GetOr(raw, "name", JStr("unnamed")))
  }

  // ---------------------------------------------------------------------------
  // Field mapping
  // ---------------------------------------------------------------------------

  function JStrs(xs: seq<string>): (r: seq<Json>)
    ensures |r| == |xs|
    ensures forall k :: 0 <= k < |r| ==> r[k] == JStr(xs[k])
  {
    seq(|xs|, i requires 0 <= i < |xs| => JStr(xs[i]))
  }

  /**
   * Personality traits always become a list: a string becomes its stripped,
   * non-empty comma pieces in order, a list is kept as it is, anything else
   * becomes `otherwise`.
   */
  function NormalizeTraits(v: Json, otherwise: Json): (r: Json)
    ensures v.JStr? ==> r == JList(JStrs(CommaList(Python, v.s)))
    ensures v.JList? ==> r == v
    ensures !v.JStr? && !v.JList? ==> r == otherwise
  {
    match v
    case JStr(s) => JList(JStrs(CommaList(Python, s)))
    case JList(_) => v
    case _ => otherwise
  }

  /** A trait string joined by a comma yields the traits of both sides, in order. */
  lemma NormalizeTraitsAround(a: string, b: string, otherwise: Json)
    ensures NormalizeTraits(JStr(a + "," + b), otherwise).items
         == NormalizeTraits(JStr(a), otherwise).items + NormalizeTraits(JStr(b), otherwise).items
  {
    CommaListAround(Python, a, b);
    JStrsAppend(CommaList(Python, a), CommaList(Python, b));
  }

  lemma JStrsAppend(xs: seq<string>, ys: seq<string>)
    ensures JStrs(xs + ys) == JStrs(xs) + JStrs(ys)
  {
    assert forall k :: 0 <= k < |xs + ys| ==> JStrs(xs + ys)[k] == (JStrs(xs) + JStrs(ys))[k];
  }

  /** A comma-free trait string yields its stripped self, or nothing when blank. */
  lemma NormalizeTraitsSingle(s: string, otherwise: Json)
    requires ',' !in s
    ensures NormalizeTraits(JStr(s), otherwise)
         == JList(if Strip(Python, s) == "" then [] else [JStr(Strip(Python, s))])
  {
    CommaListSingle(Python, s);
  }

  datatype Fields = Fields(
    name: Json, appearance: Json, traits: Json, backstory: Json, motivations: Json,
    flaws: Json, race: Json, cls: Json, ideals: Json, bonds: Json,
    speechPatterns: Json, mannerisms: Json)

  /**
   * The general mapping of a flat record (lines 62-82): each field is copied
   * when its key is present, even when it holds null; a missing name,
   * appearance or text field takes its default and a missing race or class is
   * null. Traits are always a list: a string is split on commas, a list is
   * kept, anything else (null included) or a missing key gives `[]`.
   */
  function FlatFields(raw: Doc): (f: Fields)
    ensures f.name == (if "name" in raw then raw["name"] else JStr("Unnamed NPC"))
    ensures f.appearance == (if "appearance" in raw then raw["appearance"] else JStr("No description available."))
    ensures f.backstory == (if "backstory" in raw then raw["backstory"] else JStr(""))
    ensures f.motivations == (if "motivations" in raw then raw["motivations"] else JStr(""))
    ensures f.flaws == (if "flaws" in raw then raw["flaws"] else JStr(""))
    ensures f.race == (if "race" in raw then raw["race"] else JNull)
    ensures f.cls == (if "class" in raw then raw["class"] else JNull)
    ensures f.ideals == (if "ideals" in raw then raw["ideals"] else JStr(""))
    ensures f.bonds == (if "bonds" in raw then raw["bonds"] else JStr(""))
    ensures f.speechPatterns == (if "speech_patterns" in raw then raw["speech_patterns"] else JStr(""))
    ensures f.mannerisms == (if "mannerisms" in raw then raw["mannerisms"] else JStr(""))
    ensures f.traits.JList?
    ensures "personality_traits" !in raw ==> f.traits == JList([])
    ensures "personality_traits" in raw ==> var t := raw["personality_traits"];
      && (t.JStr? ==> f.traits == JList(JStrs(CommaList(Python, t.s))))
      && (t.JList? ==> f.traits == t)
      && (!t.JStr? && !t.JList? ==> f.traits == JList([]))
  {
    Fields(
      GetOr(raw, "name", JStr("Unnamed NPC")),
      GetOr(raw, "appearance", JStr("No description available.")),
      NormalizeTraits(GetOr(raw, "personality_traits", JList([])), JList([])),
      GetOr(raw, "backstory", JStr("")),
      GetOr(raw, "motivations", JStr("")),
      GetOr(raw, "flaws", JStr("")),
      Get(raw, "race"),
      Get(raw, "class"),
      GetOr(raw, "ideals", JStr("")),
      GetOr(raw, "bonds", JStr("")),
      GetOr(raw, "speech_patterns", JStr("")),
      GetOr(raw, "mannerisms", JStr("")))
  }

  /**
   * The truthy values among race and class, then the age part (never falsy):
   * joining raises unless the kept race and class are strings.
   */
  function AppearanceParts(race: Json, cls: Json, age: Json, repr: Json -> string): (r: Result<seq<string>, Raised>)
    ensures r.Success? <==> (Truthy(race) ==> race.JStr?) && (Truthy(cls) ==> cls.JStr?)
    ensures r.Success? ==>
      r.value == (if Truthy(race) then [race.s] else []) + (if Truthy(cls) then [cls.s] else []) + ["Age: " + PyStr(age, repr)]
  {
    var kept := (if Truthy(race) then [race] else []) + (if Truthy(cls) then [cls] else [])
      + [JStr("Age: " + PyStr(age, repr))];
    assert Truthy(race) ==> kept[0] == race;
    assert Truthy(cls) ==> kept[if Truthy(race) then 1 else 0] == cls;
    if forall k :: 0 <= k < |kept| ==> kept[k].JStr? then
      Success(seq(|kept|, i requires 0 <= i < |kept| => kept[i].s))
    else
      Failure("TypeError: join of a non-string")
  }

  /** Every block the nested sheet reads is a dict, so no `.get` raises. */
  predicate SheetBlocksAreDicts(raw: Doc)
    requires "character_details" in raw
  {
    var details := raw["character_details"];
    && details.JObj?
    && GetOr(details.fields, "basic_information", JObj(map[])).JObj?
    && GetOr(details.fields, "personality_and_backstory", JObj(map[])).JObj?
    && GetOr(details.fields, "speech_and_mannerisms", JObj(map[])).JObj?
  }

  /**
   * Vuthausk's nested sheet overrides the flat mapping (lines 85-111): name,
   * race and class come from `basic_information` over the flat values; the
   * appearance is rebuilt from race, class, age and alignment; the traits are
   * normalised again from `personality_and_backstory`, keeping the flat ones
   * for a value that is neither string nor list; the story fields come from
   * `personality_and_backstory` and the speech fields from
   * `speech_and_mannerisms`, each over its flat value. It raises exactly when
   * a block is not a dict or the appearance join meets a non-string.
   */
  function SheetFields(raw: Doc, flat: Fields, repr: Json -> string): (r: Result<Fields, Raised>)
    requires "character_details" in raw
    ensures r.Success? <==> (
      && SheetBlocksAreDicts(raw)
      && var basic := GetOr(raw["character_details"].fields, "basic_information", JObj(map[])).fields;
         AppearanceParts(GetOr(basic, "race", JStr("")), GetOr(basic, "class", JStr("")),
                         GetOr(basic, "age", JStr("")), repr).Success?)
    ensures r.Success? ==>
      var details := raw["character_details"].fields;
      var basic := GetOr(details, "basic_information", JObj(map[])).fields;
      var story := GetOr(details, "personality_and_backstory", JObj(map[])).fields;
      var speech := GetOr(details, "speech_and_mannerisms", JObj(map[])).fields;
      var look := AppearanceParts(GetOr(basic, "race", JStr("")), GetOr(basic, "class", JStr("")),
                                  GetOr(basic, "age", JStr("")), repr).value;
      && r.value.name == GetOr(basic, "name", flat.name)
      && r.value.race == GetOr(basic, "race", flat.race)
      && r.value.cls == GetOr(basic, "class", flat.cls)
      && r.value.appearance == JStr(Join(look, ", ") + ". Alignment: " + PyStr(GetOr(basic, "alignment", JStr("")), repr))
      && r.value.traits == NormalizeTraits(GetOr(story, "personality_traits", GetOr(raw, "personality_traits", JList([]))), flat.traits)
      && r.value.backstory == GetOr(story, "backstory", flat.backstory)
      && r.value.motivations == GetOr(story, "motivations", flat.motivations)
      && r.value.flaws == GetOr(story, "flaws", flat.flaws)
      && r.value.ideals == GetOr(story, "ideals", flat.ideals)
      && r.value.bonds == GetOr(story, "bonds", flat.bonds)
      && r.value.speechPatterns == GetOr(speech, "speech_patterns", flat.speechPatterns)
      && r.value.mannerisms == GetOr(speech, "mannerisms", flat.mannerisms)
  {
    // `.get` on a block that is not a dict raises; the blocks are read in
    // the order of lines 86-87, 90 and 110.
    var details := raw["character_details"];
    if !details.JObj? then Failure(GetOnNonDict)
    else
      var basicBlock := GetOr(details.fields, "basic_information", JObj(map[]));
      var storyBlock := GetOr(details.fields, "personality_and_backstory", JObj(map[]));
      if !basicBlock.JObj? || !storyBlock.JObj? then Failure(GetOnNonDict)
      else
        var basic, story := basicBlock.fields, storyBlock.fields;
        var look :- AppearanceParts(GetOr(basic, "race", JStr("")), GetOr(basic, "class", JStr("")),
                                    GetOr(basic, "age", JStr("")), repr);
        var appearance := JStr(Join(look, ", ") + ". Alignment: " + PyStr(GetOr(basic, "alignment", JStr("")), repr));
        var traitsRaw := GetOr(story, "personality_traits", GetOr(raw, "personality_traits", JList([])));
        var speechBlock := GetOr(details.fields, "speech_and_mannerisms", JObj(map[]));
        if !speechBlock.JObj? then Failure(GetOnNonDict)
        else
          var speech := speechBlock.fields;
          Success(Fields(
            GetOr(basic, "name", flat.name),
            appearance,
            NormalizeTraits(traitsRaw, flat.traits),
            GetOr(story, "backstory", flat.backstory),
            GetOr(story, "motivations", flat.motivations),
            GetOr(story, "flaws", flat.flaws),
            GetOr(basic, "race", flat.race),
            GetOr(basic, "class", flat.cls),
            GetOr(story, "ideals", flat.ideals),
            GetOr(story, "bonds", flat.bonds),
            GetOr(speech, "speech_patterns", flat.speechPatterns),
            GetOr(speech, "mannerisms", flat.mannerisms)))
  }

  function MapFields(raw: Doc, fileName: string, isSoul: bool, repr: Json -> string): Result<Fields, Raised> {
    var flat := FlatFields(raw);
    if IsVuthauskSheet(raw, fileName, isSoul) then SheetFields(raw, flat, repr) else Success(flat)
  }

  /**
   * A sheet whose details hold none of the three blocks keeps every flat
   * field except the appearance, which becomes `"Age: . Alignment: "`.
   */
  lemma SheetWithoutBlocks(raw: Doc, fileName: string, repr: Json -> string)
    requires IsVuthauskSheet(raw, fileName, false)
    requires raw["character_details"].JObj?
    requires var details := raw["character_details"].fields;
      "basic_information" !in details && "personality_and_backstory" !in details
      && "speech_and_mannerisms" !in details
    ensures MapFields(raw, fileName, false, repr)
         == Success(FlatFields(raw).(appearance := JStr("Age: . Alignment: ")))
  {
    var flat := FlatFields(raw);
    var look := AppearanceParts(JStr(""), JStr(""), JStr(""), repr);
    assert !Truthy(JStr("")) && PyStr(JStr(""), repr) == "";
    assert "Age: " + "" == "Age: ";
    assert look.Success?;
    assert look.value == [] + [] + ["Age: " + ""];
    assert look.value == ["Age: "];
    assert Join(["Age: "], ", ") == "Age: ";
    assert NormalizeTraits(GetOr(raw, "personality_traits", JList([])), flat.traits) == flat.traits;
    var details := raw["character_details"].fields;
    assert GetOr(details, "basic_information", JObj(map[])) == JObj(map[]);
    assert GetOr(details, "personality_and_backstory", JObj(map[])) == JObj(map[]);
    assert GetOr(details, "speech_and_mannerisms", JObj(map[])) == JObj(map[]);
    var r := SheetFields(raw, flat, repr);
    assert r.Success?;
    assert "Age: " + ". Alignment: " + "" == "Age: . Alignment: ";
    assert r.value.appearance == JStr("Age: . Alignment: ");
  }

  /** The document before cleaning (lines 114-132). */
  function BuildDoc(id: Json, f: Fields, fileName: string, isSoul: bool, mainId: Json): Doc {
    map[
      "name" := f.name,
      "appearance" := f.appearance,
      "personality_traits" := f.traits,
      "backstory" := f.backstory,
      "motivations" := f.motivations,
      "flaws" := f.flaws,
      "race" := f.race,
      "class" := f.cls,
      "ideals" := f.ideals,
      "bonds" := f.bonds,
      "speech_patterns" := f.speechPatterns,
      "mannerisms" := f.mannerisms,
      "source_file" := JStr(fileName),
      "is_soul_npc" := JBool(isSoul),
      "main_npc_id_if_soul" := (if isSoul then mainId else JNull),
      "memories" := JList([]),
      "_id" := id
    ]
  }

  // ---------------------------------------------------------------------------
  // Cleaning and outcome
  // ---------------------------------------------------------------------------

  /** The comprehension's filter: not None, not '', and not an empty list unless it is `memories`. */
  predicate Keep(k: string, v: Json) {
    v != JNull && v != JStr("") && ((v.JList? && |v.items| > 0) || !v.JList? || k == "memories")
  }

  /** The cleaned document (lines 134-136). */
  function Clean(doc: Doc): (r: Doc)
    requires "memories" in doc && doc["memories"] == JList([])
    ensures forall k :: k in r <==> k in doc && Keep(k, doc[k])
    ensures forall k :: k in r ==> r[k] == doc[k]
    ensures forall k :: k in r ==> r[k] != JNull && r[k] != JStr("")
    ensures forall k :: k in r && k != "memories" ==> r[k] != JList([])
    ensures "memories" in r && r["memories"] == JList([])
  {
    var kept := map k | k in doc && Keep(k, doc[k]) :: doc[k];
    if "memories" in kept then kept else kept["memories" := JList([])]
  }

  /** Which of the four counters one upsert report bumps (lines 139-166). */
  function CountOf(u: Upsert): (c: Counts)
    ensures c.Total() == 1
    ensures c.inserted == 1 <==> u == Inserted
    ensures c.updated == 1 <==> u == Matched(true)
    ensures c.noChange == 1 <==> u == Matched(false)
    ensures c.skipped == 1 <==> u in {NoMatch, DuplicateKey, DbError, Unexpected}
  {
    match u
    case Inserted => Counts(1, 0, 0, 0)
    case Matched(modified) => if modified then Counts(0, 1, 0, 0) else Counts(0, 0, 0, 1)
    case _ => SkipOne
  }

  /**
   * `process_npc_data`: a non-dict is skipped without a write; a dict is mapped,
   * cleaned and upserted, and exactly one counter is 1. A failure is an
   * exception the function lets escape.
   */
  function ProcessNpc(raw: Json, fileName: string, isSoul: bool, mainId: Json, env: Env): (r: Result<Processed, Raised>)
    ensures !raw.JObj? ==> r == Success(Processed(SkipOne, None))
    ensures r.Success? ==> r.value.counts.Total() == 1
    ensures r.Success? && raw.JObj? ==>
      (r.value.written.Some? && r.value.counts == CountOf(env.upsert(r.value.written.value)))
    ensures r.Success? && raw.JObj? ==> NameSlugForId(raw.fields, fileName, isSoul).Success?
    ensures r.Success? && raw.JObj? ==> var doc := r.value.written.value;
      && "memories" in doc && doc["memories"] == JList([])
      && (forall k :: k in doc ==> doc[k] != JNull && doc[k] != JStr(""))
      && (forall k :: k in doc && k != "memories" ==> doc[k] != JList([]))
  {
    if !raw.JObj? then Success(Processed(SkipOne, None))
    else
      var d := raw.fields;
      var nameSlug :- NameSlugForId(d, fileName, isSoul);
      var id := ChooseId(d, fileName, isSoul, nameSlug, env);
      var fields :- MapFields(d, fileName, isSoul, env.repr);
      var doc := Clean(BuildDoc(id, fields, fileName, isSoul, mainId));
      Success(Processed(CountOf(env.upsert(doc)), Some(doc)))
  }

  /** The cleaned document keeps the id, the source file, the soul flag and the link rule. */
  lemma CleanBuiltDoc(id: Json, f: Fields, fileName: string, isSoul: bool, mainId: Json)
    requires Truthy(id)
    ensures var full := BuildDoc(id, f, fileName, isSoul, mainId);
      "memories" in full && full["memories"] == JList([])
    ensures var doc := Clean(BuildDoc(id, f, fileName, isSoul, mainId));
      && "_id" in doc && doc["_id"] == id
      && ("source_file" in doc <==> fileName != "")
      && (fileName != "" ==> doc["source_file"] == JStr(fileName))
      && "is_soul_npc" in doc && doc["is_soul_npc"] == JBool(isSoul)
      && ("main_npc_id_if_soul" in doc <==> isSoul && Keep("main_npc_id_if_soul", mainId))
  {
    var full := BuildDoc(id, f, fileName, isSoul, mainId);
    assert full["_id"] == id;
    assert full["memories"] == JList([]);
    assert full["main_npc_id_if_soul"] == (if isSoul then mainId else JNull);
    assert full["is_soul_npc"] == JBool(isSoul);
    assert full["source_file"] == JStr(fileName);
  }

  /**
   * The written document is the cleaned build of the mapped fields under the
   * chosen `_id`; souls alone carry a link.
   */
  lemma WrittenDocShape(raw: Json, fileName: string, isSoul: bool, mainId: Json, env: Env)
    requires raw.JObj?
    requires ProcessNpc(raw, fileName, isSoul, mainId, env).Success?
    ensures MapFields(raw.fields, fileName, isSoul, env.repr).Success?
    ensures var doc := ProcessNpc(raw, fileName, isSoul, mainId, env).value.written.value;
      var id := ChooseId(raw.fields, fileName, isSoul, NameSlugForId(raw.fields, fileName, isSoul).value, env);
      && doc == Clean(BuildDoc(id, MapFields(raw.fields, fileName, isSoul, env.repr).value, fileName, isSoul, mainId))
      && "_id" in doc
      && doc["_id"] == ChooseId(raw.fields, fileName, isSoul,
                                NameSlugForId(raw.fields, fileName, isSoul).value, env)
      && ("source_file" in doc <==> fileName != "")
      && "is_soul_npc" in doc && doc["is_soul_npc"] == JBool(isSoul)
      && ("main_npc_id_if_soul" in doc <==> isSoul && Keep("main_npc_id_if_soul", mainId))
  {
    var d := raw.fields;
    var nameSlug := NameSlugForId(d, fileName, isSoul).value;
    var id := ChooseId(d, fileName, isSoul, nameSlug, env);
    var fields := MapFields(d, fileName, isSoul, env.repr).value;
    var doc := Clean(BuildDoc(id, fields, fileName, isSoul, mainId));
    assert ProcessNpc(raw, fileName, isSoul, mainId, env).value.written == Some(doc);
    CleanBuiltDoc(id, fields, fileName, isSoul, mainId);
  }

  /**
   * Only a non-string name stops an ordinary record: a record outside
   * Vuthausk's sheet is processed without an escaping exception exactly when
   * its `name` is absent or a string.
   */
  lemma FlatRecordRaisesOnlyOnBadName(raw: Doc, fileName: string, isSoul: bool, mainId: Json, env: Env)
    requires !IsVuthauskSheet(raw, fileName, isSoul)
    ensures ProcessNpc(JObj(raw), fileName, isSoul, mainId, env).Success?
      <==> ("name" in raw ==> raw["name"].JStr?)
  {
  }

  // ---------------------------------------------------------------------------
  // Files: which records a file holds, souls, totals
  // ---------------------------------------------------------------------------

  /** One call of `process_npc_data` planned for a file. */
  datatype Call = Call(raw: Json, isSoul: bool, mainId: Json)

  /** The text before the first `sep`, or all of `s` when there is none. */
  function BeforeFirst(s: string, sep: string): string {
    match Find(s, sep)
    case Some(i) => s[..i]
    case None => s
  }

  /** The text after the first `sep`, if there is one. */
  function AfterFirst(s: string, sep: string): Option<string> {
    match Find(s, sep)
    case Some(i) => Some(s[i + |sep|..])
    case None => None
  }

  lemma SplitFirstTwo(s: string, sep: string)
    requires |sep| > 0
    ensures Split(s, sep)[0] == BeforeFirst(s, sep)
    ensures |Split(s, sep)| > 1 <==> AfterFirst(s, sep).Some?
    ensures AfterFirst(s, sep).Some? ==> Split(s, sep)[1] == BeforeFirst(AfterFirst(s, sep).value, sep)
  {
    match Find(s, sep)
    case None =>
    case Some(i) =>
      var rest := s[i + |sep|..];
      assert Split(s, sep) == [s[..i]] + Split(rest, sep);
      match Find(rest, sep)
      case None =>
      case Some(j) =>
  }

  /** A soul string as the record the loader builds for it (lines 229-236). */
  function SoulRecord(soul: string): Doc {
    var parts := Split(soul, " - ");
    var name := Strip(Python, parts[0]);
    var desc := if |parts| > 1 then Strip(Python, parts[1]) else soul;
    map[
      "name" := JStr(name),
      "appearance" := JStr("A past life soul: " + desc),
      "personality_traits" := JList([JStr("Past Life Influence")])
    ]
  }

  /**
   * A soul string `"<name> - <description>"`: the name is the stripped text
   * before the first `" - "`; the description is the stripped text from there
   * up to the next `" - "`, or the whole unstripped string when there is no
   * `" - "`; the only trait is "Past Life Influence".
   */
  lemma SoulRecordFields(soul: string)
    ensures var r := SoulRecord(soul);
      && r.Keys == {"name", "appearance", "personality_traits"}
      && r["name"] == JStr(Strip(Python, BeforeFirst(soul, " - ")))
      && r["appearance"] == JStr("A past life soul: " +
           match AfterFirst(soul, " - ")
           case Some(rest) => Strip(Python, BeforeFirst(rest, " - "))
           case None => soul)
      && r["personality_traits"] == JList([JStr("Past Life Influence")])
  {
    SplitFirstTwo(soul, " - ");
  }

  predicate NonBlank(v: Json) {
    v.JStr? && Strip(Python, v.s) != ""
  }

  /** The souls list entries that are non-blank strings, as records, in order (lines 227-237). */
  function SoulRecords(souls: seq<Json>): (r: seq<Json>)
    ensures |r| <= |souls|
    ensures (forall j :: 0 <= j < |souls| ==> !NonBlank(souls[j])) ==> r == []
    ensures |r| == |SoulStrings(souls)|
    ensures forall k :: 0 <= k < |r| ==> r[k] == JObj(SoulRecord(SoulStrings(souls)[k]))
  {
    var kept := SoulStrings(souls);
    seq(|kept|, i requires 0 <= i < |kept| => JObj(SoulRecord(kept[i])))
  }

  /**
   * The soul entries that yield a record: the non-blank strings, in order.
   * Every kept string is non-blank and every non-blank entry is kept;
   * `SoulStringsAppend` and `SoulStringsSingle` pin down the order.
   */
  function SoulStrings(souls: seq<Json>): (r: seq<string>)
    ensures |r| <= |souls|
    ensures (forall j :: 0 <= j < |souls| ==> !NonBlank(souls[j])) ==> r == []
    ensures forall k :: 0 <= k < |r| ==> Strip(Python, r[k]) != "" && JStr(r[k]) in souls
    ensures forall j :: 0 <= j < |souls| && NonBlank(souls[j]) ==> souls[j].s in r
  {
    if souls == [] then []
    else
      var rest := SoulStrings(souls[1..]);
      assert forall j :: 1 <= j < |souls| ==> souls[j] == souls[1..][j - 1];
      if NonBlank(souls[0]) then [souls[0].s] + rest else rest
  }

  /** One entry yields its string exactly when it is a non-blank string. */
  lemma SoulStringsSingle(v: Json)
    ensures SoulStrings([v]) == (if NonBlank(v) then [v.s] else [])
  {
    assert [v][1..] == [];
  }

  /** Filtering souls distributes over concatenation, so the kept strings keep their order. */
  lemma {:induction false} SoulStringsAppend(xs: seq<Json>, ys: seq<Json>)
    ensures SoulStrings(xs + ys) == SoulStrings(xs) + SoulStrings(ys)
  {
    if xs == [] {
      assert xs + ys == ys;
    } else {
      assert (xs + ys)[1..] == xs[1..] + ys;
      SoulStringsAppend(xs[1..], ys);
    }
  }

  /** The records of a souls list are those of its parts, in order. */
  lemma SoulRecordsAppend(xs: seq<Json>, ys: seq<Json>)
    ensures SoulRecords(xs + ys) == SoulRecords(xs) + SoulRecords(ys)
  {
    SoulStringsAppend(xs, ys);
  }

  /** When every entry is a non-blank string, all of them are kept, in order. */
  lemma {:induction false} SoulStringsAllKept(souls: seq<Json>)
    requires forall j :: 0 <= j < |souls| ==> NonBlank(souls[j])
    ensures |SoulStrings(souls)| == |souls|
    ensures forall j :: 0 <= j < |souls| ==> SoulStrings(souls)[j] == souls[j].s
  {
    if souls != [] {
      var tail := souls[1..];
      forall j | 0 <= j < |tail| ensures NonBlank(tail[j]) {
        assert tail[j] == souls[j + 1];
      }
      SoulStringsAllKept(tail);
      var r := SoulStrings(souls);
      assert r == [souls[0].s] + SoulStrings(tail);
      forall j | 0 <= j < |souls| ensures r[j] == souls[j].s {
        if j > 0 {
          assert tail[j - 1] == souls[j];
        }
      }
    }
  }

  /** When every soul is a non-blank string, each becomes its record at the same position. */
  lemma SoulRecordsAllKept(souls: seq<Json>)
    requires forall j :: 0 <= j < |souls| ==> NonBlank(souls[j])
    ensures |SoulRecords(souls)| == |souls|
    ensures forall j :: 0 <= j < |souls| ==> SoulRecords(souls)[j] == JObj(SoulRecord(souls[j].s))
  {
    SoulStringsAllKept(souls);
  }

  /**
   * `"vuthausk_" + slug(name)`, the id souls are linked to (lines 221-222):
   * the name is the sheet's `basic_information.name`, "vuthausk" when absent,
   * and a block that is not a dict or a name that is not a string raises.
   */
  function MainLink(sheet: Doc): (r: Result<string, Raised>)
    requires "character_details" in sheet
    ensures r.Success? <==> NameSlugForId(sheet, VuthauskFile, false).Success?
    ensures r.Success? ==> r.value == "vuthausk_" + NameSlugForId(sheet, VuthauskFile, false).value
    ensures var details := sheet["character_details"];
      details.JObj? && GetOr(details.fields, "basic_information", JObj(map[])).JObj? ==>
        var name := GetOr(GetOr(details.fields, "basic_information", JObj(map[])).fields, "name", JStr("vuthausk"));
        (r.Success? <==> name.JStr?) && (name.JStr? ==> r.value == "vuthausk_" + Slug(name.s))
  {
    var basic :- DictGet(sheet["character_details"], "basic_information", JObj(map[]));
    var name :- DictGet(basic, "name", JStr("vuthausk"));
    var slug :- SlugOf(name);
    Success("vuthausk_" + slug)
  }

  /**
   * The records a file's decoded content yields and the link its souls get
   * (lines 215-249); None skips the file. Vuthausk's sheet gives itself, then
   * its souls' records, linked to `MainLink`; a list gives its items and a
   * dict itself, unlinked; anything else is skipped.
   */
  function FileRecords(fileName: string, data: Json): (r: Result<Option<(seq<Json>, Json)>, Raised>)
    ensures data.JList? ==> r == Success(Some((data.items, JNull)))
    ensures data.JObj? && !(IsVuthauskFile(fileName) && "character_details" in data.fields) ==>
      r == Success(Some(([data], JNull)))
    ensures !data.JList? && !data.JObj? ==> r == Success(None)
    ensures IsVuthauskFile(fileName) && data.JObj? && "character_details" in data.fields ==>
      var details := data.fields["character_details"];
      && (MainLink(data.fields).Failure? ==> r.Failure?)
      && (MainLink(data.fields).Success? && details.JObj? ==>
            var game := GetOr(details.fields, "in_game_details", JObj(map[]));
            && (!game.JObj? ==> r.Failure?)
            && (game.JObj? ==>
                  var souls := GetOr(game.fields, SoulsKey, JList([]));
                  r == Success(Some(([data] + (if souls.JList? then SoulRecords(souls.items) else []),
                                     JStr(MainLink(data.fields).value))))))
  {
    if IsVuthauskFile(fileName) && data.JObj? && "character_details" in data.fields then
      var link :- MainLink(data.fields);
      var game :- DictGet(data.fields["character_details"], "in_game_details", JObj(map[]));
      var souls :- DictGet(game, SoulsKey, JList([]));
      var soulRecords := if souls.JList? && |souls.items| > 0 then SoulRecords(souls.items) else [];
      Success(Some(([data] + soulRecords, JStr(link))))
    else if data.JList? then Success(Some((data.items, JNull)))
    else if data.JObj? then Success(Some(([data], JNull)))
    else Success(None)
  }

  /** The calls made for a file's records: in the Vuthausk file every record after the first is a soul. */
  function PlanCalls(fileName: string, records: seq<Json>, link: Json): (r: seq<Call>)
    ensures |r| == |records|
    ensures forall k :: 0 <= k < |r| ==> r[k].raw == records[k]
    ensures forall k :: 0 <= k < |r| ==> (r[k].isSoul <==> IsVuthauskFile(fileName) && k > 0)
    ensures forall k :: 0 <= k < |r| ==> r[k].mainId == (if r[k].isSoul then link else JNull)
  {
    seq(|records|, k requires 0 <= k < |records| =>
      if IsVuthauskFile(fileName) && k > 0 then Call(records[k], true, link)
      else Call(records[k], false, JNull))
  }

  /** The literal file name gives the stem slug "vuthausk". */
  lemma VuthauskStemSlug()
    ensures IsVuthauskFile(VuthauskFile) && Slug(Stem(VuthauskFile)) == "vuthausk"
  {
    assert forall k :: 0 <= k < |VuthauskFile| ==> VuthauskFile[k] != '/';
    assert forall k :: 0 <= k < |VuthauskFile| && k != 8 ==> VuthauskFile[k] != '.';
    assert VuthauskFile[8] == '.';
    assert RFind(VuthauskFile, '/') == -1;
    assert RFind(VuthauskFile, '.') == 8;
    assert VuthauskFile[0] != '.';
    assert Stem(VuthauskFile) == "vuthausk";
  }

  /**
   * The souls point at the sheet's own record only when that record's id is
   * generated without a collision: with no truthy `_id` or `id` and a stem
   * that slugs to "vuthausk", the sheet's id equals the souls' link.
   */
  lemma SheetLinkIsSheetId(data: Doc, fileName: string, env: Env)
    requires IsVuthauskFile(fileName) && Slug(Stem(fileName)) == "vuthausk"
    requires "character_details" in data && MainLink(data).Success?
    requires !("_id" in data && Truthy(data["_id"])) && !("id" in data && Truthy(data["id"]))
    requires var c := CandidateId(fileName, false, NameSlugForId(data, fileName, false).value);
      !Collides(env.findOne(c), data)
    ensures ChooseId(data, fileName, false, NameSlugForId(data, fileName, false).value, env)
         == JStr(MainLink(data).value)
  {
    var slug := NameSlugForId(data, fileName, false).value;
    assert NameSlugForId(data, fileName, false) == NameSlugForId(data, VuthauskFile, false);
    var c := CandidateId(fileName, false, slug);
    assert c[|"vuthausk_"|..] == slug;
    assert c == "vuthausk_" + slug;
  }

  /**
   * A Vuthausk file holding a list, not the sheet, still marks every item
   * after the first as a soul, linked to None.
   */
  lemma VuthauskListSoulsUnlinked(fileName: string, items: seq<Json>)
    requires IsVuthauskFile(fileName) && |items| >= 2
    ensures var plan := FilePlan(fileName, JList(items));
      && plan.Success? && plan.value.Some? && |plan.value.value| == |items|
      && forall k :: 1 <= k < |items| ==> plan.value.value[k].isSoul && plan.value.value[k].mainId == JNull
  {
  }

  /** The calls a file yields, or None when the file is skipped. */
  function FilePlan(fileName: string, data: Json): Result<Option<seq<Call>>, Raised> {
    var found :- FileRecords(fileName, data);
    match found
    case None => Success(None)
    case Some((records, link)) => Success(Some(PlanCalls(fileName, records, link)))
  }

  /** The counters summed over a file's calls; call `k` sees the collection as `env(start + k)`. */
  function RunCalls(fileName: string, calls: seq<Call>, env: nat -> Env, start: nat): (r: Result<Counts, Raised>)
    ensures r.Success? ==> r.value.Total() == |calls|
    decreases |calls|
  {
    if calls == [] then Success(Counts(0, 0, 0, 0))
    else
      var c := calls[0];
      var one :- ProcessNpc(c.raw, fileName, c.isSoul, c.mainId, env(start));
      var rest :- RunCalls(fileName, calls[1..], env, start + 1);
      Success(one.counts.Plus(rest))
  }

  /** A file name the loader treats as NPC data (world files are excluded, line 191). */
  predicate IsNpcFile(fileName: string) {
    !StartsWith(fileName, "world_")
  }

  /** The overall summary printed at the end. */
  datatype Summary = Summary(files: nat, records: nat, counts: Counts)

  /**
   * `load_npcs_to_db` over the directory listing: each entry is a file name and
   * its decoded content (None when reading or parsing failed).
   */
  function LoadAll(files: seq<(string, Option<Json>)>, env: nat -> Env, start: nat): (r: Result<Summary, Raised>)
    ensures r.Success? ==> r.value.counts.Total() == r.value.records
    decreases |files|
  {
    if files == [] then Success(Summary(0, 0, Counts(0, 0, 0, 0)))
    else
      var (name, content) := files[0];
      var calls :- if IsNpcFile(name) && content.Some? then FilePlan(name, content.value) else Success(None);
      var n := match calls case Some(cs) => |cs| case None => 0;
      var here :- match calls
        case Some(cs) => RunCalls(name, cs, env, start)
        case None => Success(Counts(0, 0, 0, 0));
      var rest :- LoadAll(files[1..], env, start + n);
      Success(Summary((if IsNpcFile(name) then 1 else 0) + rest.files, n + rest.records, here.Plus(rest.counts)))
  }

}
