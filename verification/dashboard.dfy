/**
 * The dashboard's pure logic: the PC and NPC lists with their ownership
 * tags and edit rights, the allow-listed character update, the world-item
 * form's payload and its create-or-update route, and `capitalizeFirstLetter`.
 */
module Dashboard {
  import opened Wrappers
  import opened Text
  import opened Characters
  import opened Forms

  // ---------------------------------------------------------------------------
  // The character lists (lines 137-163)
  // ---------------------------------------------------------------------------

  /** Whose character it is, as far as the list is concerned. */
  datatype Ownership =
    | Mine                  // uploaded by the signed-in user: editable
    | Default(kind: string) // no uploader: a default character of the given kind
    | Others                // uploaded by someone else

  /**
   * The owner test of lines 140-145. `currentUserId` is the signed-in user's
   * `_id`, absent when nobody is signed in.
   */
  function OwnershipOf(c: Character, currentUserId: Option<string>): (o: Ownership)
    ensures o.Mine? <==> Truthy(c.userId) && currentUserId == c.userId
    ensures o.Default? <==> !Truthy(c.userId)
    ensures o.Default? ==> o.kind == Or(c.characterType, "Character")
  {
    if Truthy(c.userId) && currentUserId.Some? && c.userId == currentUserId then Mine
    else if !Truthy(c.userId) then Default(Or(c.characterType, "Character"))
    else Others
  }

  const UploadedByYou := " (Uploaded by you)"
  const DefaultOpen := " (Default "

  /** The tag printed after the name. */
  function OwnerTag(o: Ownership): string {
    match o
    case Mine => UploadedByYou
    case Default(kind) => DefaultOpen + kind + ")"
    case Others => ""
  }

  /** Different ownerships print different tags, so the tag tells the reader which case applies. */
  lemma OwnerTagIdentifies(o1: Ownership, o2: Ownership)
    requires OwnerTag(o1) == OwnerTag(o2)
    ensures o1 == o2
  {
    var t := OwnerTag(o1);
    match o1
    case Mine =>
      assert t[2] == 'U';
    case Default(k1) =>
      assert t[2] == 'D';
      assert |t| > 0;
      if o2.Default? {
        assert k1 == t[|DefaultOpen|..|t| - 1];
        assert o2.kind == OwnerTag(o2)[|DefaultOpen|..|t| - 1];
      }
    case Others =>
  }

  lemma MineTag(o: Ownership)
    ensures OwnerTag(o) == UploadedByYou <==> o.Mine?
  {
    if OwnerTag(o) == UploadedByYou {
      OwnerTagIdentifies(o, Mine);
    }
  }

  /** One list entry: the id and name printed, the tag, and whether Edit and Delete are offered. */
  datatype ListItem = ListItem(id: string, name: string, tag: string, canEdit: bool)

  function ItemOf(c: Character, currentUserId: Option<string>): (r: ListItem)
    ensures r.canEdit <==> Truthy(c.userId) && currentUserId == c.userId
    ensures r.canEdit <==> r.tag == UploadedByYou
    ensures !Truthy(c.userId) ==> r.tag == DefaultOpen + Or(c.characterType, "Character") + ")"
  {
    var o := OwnershipOf(c, currentUserId);
    MineTag(o);
    ListItem(TemplateText(c.id), Or(c.name, "Unnamed Character"), OwnerTag(o), o.Mine?)
  }

  function ListItems(cs: seq<Character>, currentUserId: Option<string>): (r: seq<ListItem>)
    ensures |r| == |cs| && forall k :: 0 <= k < |cs| ==> r[k] == ItemOf(cs[k], currentUserId)
  {
    seq(|cs|, k requires 0 <= k < |cs| => ItemOf(cs[k], currentUserId))
  }

  /**
   * `loadUserCharacters`' pass: each character's entry goes to the PC list
   * when its type is `"PC"` and to the NPC list otherwise, in server order.
   */
  function CharacterLists(cs: seq<Character>, currentUserId: Option<string>): (r: (seq<ListItem>, seq<ListItem>))
    ensures |r.0| + |r.1| == |cs|
    ensures r.0 == ListItems(Keep(cs, true), currentUserId)
    ensures r.1 == ListItems(Keep(cs, false), currentUserId)
  {
    var (pcs, npcs) := Partition(cs);
    PartitionKeepsOrder(cs);
    (ListItems(pcs, currentUserId), ListItems(npcs, currentUserId))
  }

  // ---------------------------------------------------------------------------
  // The character update (lines 251-262)
  // ---------------------------------------------------------------------------

  /** The fields the edit form may change. */
  const EditableFields: set<string> := {
    "name", "race", "class", "alignment", "age",
    "personality_traits", "ideals", "bonds", "flaws",
    "backstory", "motivations", "speech_patterns",
    "mannerisms", "past_situation", "current_situation",
    "relationships_with_pcs", "appearance", "character_type"
  }

  /** The allow-listed entries, in order. */
  function Allowed(form: seq<Entry>): (r: seq<Entry>)
    ensures forall k :: 0 <= k < |r| ==> r[k].0 in EditableFields
  {
    if form == [] then []
    else
      var e := form[|form| - 1];
      Allowed(form[..|form| - 1]) + (if e.0 in EditableFields then [e] else [])
  }

  /** `dataToUpdate`: the loop copying allow-listed entries, a later entry overwriting an earlier one. */
  function UpdatePayload(form: seq<Entry>): (r: map<string, string>)
    ensures r.Keys == Names(form) * EditableFields
  {
    if form == [] then map[]
    else
      var init := form[..|form| - 1];
      var e := form[|form| - 1];
      assert form == init + [e];
      NamesAppend(init, e);
      var m := UpdatePayload(init);
      if e.0 in EditableFields then m[e.0 := e.1] else m
  }

  /** The update holds, for each allow-listed name, the value of its last allow-listed entry. */
  lemma {:induction false} UpdatePayloadIsFromEntries(form: seq<Entry>)
    ensures UpdatePayload(form) == FromEntries(Allowed(form))
  {
    if form != [] {
      var init := form[..|form| - 1];
      var e := form[|form| - 1];
      UpdatePayloadIsFromEntries(init);
      if e.0 in EditableFields {
        assert Allowed(form) == Allowed(init) + [e];
        FromEntriesSnoc(Allowed(init), e);
      } else {
        assert Allowed(form) == Allowed(init);
      }
    }
  }

  // ---------------------------------------------------------------------------
  // The world-item form (lines 539-549)
  // ---------------------------------------------------------------------------

  /** A submitted value: the text as entered, or a comma list split into items. */
  datatype FieldValue = Text(s: string) | Items(items: seq<string>)

  /** Entries the form carries for its own use and never submits. */
  predicate Skipped(key: string) {
    key == "_id" || key == "item_type_hidden"
  }

  /** The fields entered as comma lists. */
  predicate ListField(itemType: string, key: string) {
    (itemType == "locations" && key == "key_features") || (itemType == "religions" && key == "domains")
  }

  /** One submitted value: a comma-list field becomes its trimmed, non-empty pieces; any other stays text. */
  function Convert(itemType: string, key: string, value: string): (r: FieldValue)
    ensures ListField(itemType, key) ==> r.Items? && forall k :: 0 <= k < |r.items| ==> CleanItem(JavaScript, r.items[k])
    ensures ListField(itemType, key) ==> r == Items(CommaList(JavaScript, value))
    ensures !ListField(itemType, key) ==> r == Text(value)
  {
    if ListField(itemType, key) then Items(CommaList(JavaScript, value)) else Text(value)
  }

  /** `dataToSubmit`: every entry but the skipped ones, converted, a later entry overwriting an earlier one. */
  function WorldItemPayload(itemType: string, form: seq<Entry>): (r: map<string, FieldValue>)
    ensures r.Keys == set k | k in Names(form) && !Skipped(k)
    ensures forall k :: k in r && ListField(itemType, k) ==> r[k].Items?
    ensures forall k :: k in r && !ListField(itemType, k) ==> r[k].Text?
  {
    if form == [] then map[]
    else
      var init := form[..|form| - 1];
      var e := form[|form| - 1];
      assert form == init + [e];
      NamesAppend(init, e);
      var m := WorldItemPayload(itemType, init);
      if Skipped(e.0) then m else m[e.0 := Convert(itemType, e.0, e.1)]
  }

  /** The submitted fields of the entries' object: each one converted. */
  function Submitted(itemType: string, last: map<string, string>): map<string, FieldValue> {
    map k | k in last && !Skipped(k) :: Convert(itemType, k, last[k])
  }

  lemma SubmittedSet(itemType: string, last: map<string, string>, key: string, value: string)
    requires !Skipped(key)
    ensures Submitted(itemType, last[key := value]) == Submitted(itemType, last)[key := Convert(itemType, key, value)]
  {
  }

  lemma SubmittedSkip(itemType: string, last: map<string, string>, key: string, value: string)
    requires Skipped(key)
    ensures Submitted(itemType, last[key := value]) == Submitted(itemType, last)
  {
  }

  /** Each submitted field is its last entry's value, converted. */
  lemma {:induction false} WorldItemPayloadIsFromEntries(itemType: string, form: seq<Entry>)
    ensures WorldItemPayload(itemType, form) == Submitted(itemType, FromEntries(form))
  {
    if form != [] {
      var init := form[..|form| - 1];
      var e := form[|form| - 1];
      WorldItemPayloadIsFromEntries(itemType, init);
      assert form == init + [e];
      FromEntriesSnoc(init, e);
      if Skipped(e.0) {
        SubmittedSkip(itemType, FromEntries(init), e.0, e.1);
      } else {
        SubmittedSet(itemType, FromEntries(init), e.0, e.1);
      }
    }
  }

  /** How the form is sent: a new item is created, an existing one updated. */
  datatype Verb = Post | Put

  const WorldInfoBase := "/api/world-info/"

  /** Lines 548-549: an empty item id creates, any other updates that item. */
  function Route(itemType: string, itemId: string): (r: (Verb, string))
    ensures r.0 == Put <==> itemId != ""
    ensures StartsWith(r.1, WorldInfoBase + itemType)
    ensures itemId != "" ==> r.1 == WorldInfoBase + itemType + "/" + itemId
    ensures itemId == "" ==> r.1 == WorldInfoBase + itemType
  {
    var base := WorldInfoBase + itemType;
    if itemId != "" then (Put, base + "/" + itemId) else (Post, base)
  }

  /** Different items of one type are sent to different places. */
  lemma RouteSeparatesItems(itemType: string, id1: string, id2: string)
    requires Route(itemType, id1) == Route(itemType, id2)
    ensures id1 == id2
  {
    if id1 != "" {
      var base := WorldInfoBase + itemType + "/";
      assert Route(itemType, id1).1 == base + id1;
      assert Route(itemType, id2).1 == base + id2;
      assert id1 == (base + id1)[|base|..];
      assert id2 == (base + id2)[|base|..];
    }
  }

  // ---------------------------------------------------------------------------
  // capitalizeFirstLetter (lines 588-591)
  // ---------------------------------------------------------------------------

  /** `''` for a missing or empty value; otherwise the first character upper-cased. */
  function CapitalizeFirstLetter(v: Option<string>): (r: string)
    ensures v.None? || v.value == [] ==> r == []
    ensures v.Some? && v.value != [] ==>
      |r| == |v.value| && r[0] == UpperChar(v.value[0]) && r[1..] == v.value[1..]
  {
    if v.None? || v.value == [] then [] else [UpperChar(v.value[0])] + v.value[1..]
  }

  /** Capitalizing twice is capitalizing once. */
  lemma CapitalizeIdempotent(v: Option<string>)
    ensures CapitalizeFirstLetter(Some(CapitalizeFirstLetter(v))) == CapitalizeFirstLetter(v)
  {
    var r := CapitalizeFirstLetter(v);
    if r != [] {
      assert UpperChar(r[0]) == r[0];
      assert r == [r[0]] + r[1..];
    }
  }
}
