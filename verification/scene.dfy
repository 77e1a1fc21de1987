/**
 * The pure logic of the scene page: HTML escaping, the avatar colour and
 * initials, reading the selected ids from the query string, sorting the
 * fetched characters into PCs and NPCs, choosing the exchange committed to
 * memory, and which log entries enter an NPC's conversation history.
 */
module Scene {
  import opened Wrappers
  import opened Text
  import opened Characters

  // ---------------------------------------------------------------------------
  // escapeForHtml (lines 22-34)
  // ---------------------------------------------------------------------------

  /** The characters `escapeForHtml` must never let through. */
  predicate Special(c: char) {
    c == '<' || c == '>' || c == '"' || c == '\'' || c == '`'
  }

  /** `s.replace(/c/g, rep)`. */
  function ReplaceAll(s: string, c: char, rep: string): string {
    if s == [] then [] else (if s[0] == c then rep else [s[0]]) + ReplaceAll(s[1..], c, rep)
  }

  /** The six replacements, in the order the source chains them. */
  const Rules: seq<(char, string)> :=
    [('&', "&amp;"), ('<', "&lt;"), ('>', "&gt;"), ('"', "&quot;"), ('\'', "&#039;"), ('`', "&#96;")]

  /** Each replacement applied to the whole text, one after the other. */
  function ApplyRules(s: string, rules: seq<(char, string)>): string
    decreases |rules|
  {
    if rules == [] then s else ApplyRules(ReplaceAll(s, rules[0].0, rules[0].1), rules[1..])
  }

  function Replacements(s: string): string {
    ApplyRules(s, Rules)
  }

  /** The entity each character becomes: the reference for the chain of replacements. */
  function EscapeChar(c: char): string {
    match c
    case '&' => "&amp;"
    case '<' => "&lt;"
    case '>' => "&gt;"
    case '"' => "&quot;"
    case '\'' => "&#039;"
    case '`' => "&#96;"
    case _ => [c]
  }

  /** Every character replaced by its entity, independently of the others. */
  function EscapeEach(s: string): (r: string)
    ensures forall k :: 0 <= k < |r| ==> !Special(r[k])
    ensures (forall k :: 0 <= k < |s| ==> !Special(s[k]) && s[k] != '&') ==> r == s
  {
    if s == [] then []
    else
      var head := EscapeChar(s[0]);
      var rest := EscapeEach(s[1..]);
      assert forall k :: 0 <= k < |head| ==> !Special(head[k]);
      assert forall k :: 0 <= k < |head + rest| ==> (head + rest)[k] == if k < |head| then head[k] else rest[k - |head|];
      head + rest
  }

  lemma {:induction false} ReplaceAllAppend(a: string, b: string, c: char, rep: string)
    ensures ReplaceAll(a + b, c, rep) == ReplaceAll(a, c, rep) + ReplaceAll(b, c, rep)
  {
    if a == [] {
      assert a + b == b;
    } else {
      assert (a + b)[0] == a[0];
      assert (a + b)[1..] == a[1..] + b;
      ReplaceAllAppend(a[1..], b, c, rep);
    }
  }

  lemma {:induction false} ReplaceAllAbsent(s: string, c: char, rep: string)
    requires c !in s
    ensures ReplaceAll(s, c, rep) == s
  {
    if s != [] {
      assert s == [s[0]] + s[1..];
      ReplaceAllAbsent(s[1..], c, rep);
    }
  }

  /** None of the rules' characters occurs in `s`. */
  predicate Untouched(s: string, rules: seq<(char, string)>) {
    forall j :: 0 <= j < |rules| ==> rules[j].0 !in s
  }

  lemma {:induction false} ApplyUntouched(s: string, rules: seq<(char, string)>)
    requires Untouched(s, rules)
    ensures ApplyRules(s, rules) == s
    decreases |rules|
  {
    if rules != [] {
      ReplaceAllAbsent(s, rules[0].0, rules[0].1);
      ApplyUntouched(s, rules[1..]);
    }
  }

  lemma {:induction false} ApplyRulesAppend(a: string, b: string, rules: seq<(char, string)>)
    ensures ApplyRules(a + b, rules) == ApplyRules(a, rules) + ApplyRules(b, rules)
    decreases |rules|
  {
    if rules != [] {
      var (c, rep) := rules[0];
      ReplaceAllAppend(a, b, c, rep);
      ApplyRulesAppend(ReplaceAll(a, c, rep), ReplaceAll(b, c, rep), rules[1..]);
    }
  }

  /** The replacement of one character by one rule. */
  lemma ReplaceOne(c: char, rep: string)
    ensures ReplaceAll([c], c, rep) == rep
  {
    assert [c][1..] == [];
  }

  /**
   * A character is replaced by the first rule for it, and the later rules
   * leave that entity alone.
   */
  lemma {:induction false} ApplyFirstMatch(c: char, rules: seq<(char, string)>, i: nat)
    requires i < |rules| && rules[i].0 == c
    requires forall j :: 0 <= j < i ==> rules[j].0 != c
    requires Untouched(rules[i].1, rules[i + 1..])
    ensures ApplyRules([c], rules) == rules[i].1
    decreases i
  {
    if i == 0 {
      ReplaceOne(c, rules[0].1);
      ApplyUntouched(rules[0].1, rules[1..]);
    } else {
      ReplaceAllAbsent([c], rules[0].0, rules[0].1);
      assert rules[1..][i - 1 + 1..] == rules[i + 1..];
      ApplyFirstMatch(c, rules[1..], i - 1);
    }
  }

  lemma ReplacementsChar(c: char)
    ensures Replacements([c]) == EscapeChar(c)
  {
    match c
    case '&' => ApplyFirstMatch(c, Rules, 0);
    case '<' => ApplyFirstMatch(c, Rules, 1);
    case '>' => ApplyFirstMatch(c, Rules, 2);
    case '"' => ApplyFirstMatch(c, Rules, 3);
    case '\'' => ApplyFirstMatch(c, Rules, 4);
    case '`' => ApplyFirstMatch(c, Rules, 5);
    case _ => ApplyUntouched([c], Rules);
  }

  /** The chain of replacements escapes each character on its own: `&` first keeps entities intact. */
  lemma {:induction false} ReplacementsAreEscapeEach(s: string)
    ensures Replacements(s) == EscapeEach(s)
  {
    if s != [] {
      assert s == [s[0]] + s[1..];
      ApplyRulesAppend([s[0]], s[1..], Rules);
      ReplacementsChar(s[0]);
      ReplacementsAreEscapeEach(s[1..]);
    }
  }

  /**
   * `escapeForHtml`: `null`/`undefined` give the empty string; otherwise the
   * text with each special character replaced by its entity.
   */
  function EscapeForHtml(v: Option<string>): (r: string)
    ensures v.None? ==> r == ""
    ensures v.Some? ==> r == EscapeEach(v.value)
    ensures forall k :: 0 <= k < |r| ==> !Special(r[k])
    ensures v.Some? && (forall k :: 0 <= k < |v.value| ==> !Special(v.value[k]) && v.value[k] != '&') ==> r == v.value
  {
    if v.None? then ""
    else
      ReplacementsAreEscapeEach(v.value);
      Replacements(v.value)
  }

  // ---------------------------------------------------------------------------
  // stringToColor (lines 229-238)
  // ---------------------------------------------------------------------------

  const Two32 := 0x1_0000_0000

  /** JavaScript's ToInt32: the 32-bit two's-complement value congruent to `x`. */
  function ToInt32(x: int): (r: int)
    ensures -0x8000_0000 <= r < 0x8000_0000
    ensures (r - x) % Two32 == 0
  {
    var m := x % Two32;
    if m >= 0x8000_0000 then m - Two32 else m
  }

  /** One step of the loop: `hash = c + ((hash << 5) - hash)` followed by `hash = hash & hash`. */
  function HashStep(h: int, c: int): int {
    ToInt32(c + (ToInt32(h * 32) - h))
  }

  /** The hash the loop computes over the code units, as the int32 JavaScript holds. */
  function JsHash(units: seq<int>): (r: int)
    ensures -0x8000_0000 <= r < 0x8000_0000
  {
    if units == [] then 0 else HashStep(JsHash(units[..|units| - 1]), units[|units| - 1])
  }

  /** The reference hash: `h = c + 31 * h` over the code units, modulo 2^32. */
  function Hash(units: seq<int>): (r: nat)
    ensures r < Two32
  {
    if units == [] then 0 else (units[|units| - 1] + 31 * Hash(units[..|units| - 1])) % Two32
  }

  lemma MultipleSum(a: int, b: int)
    requires a % Two32 == 0 && b % Two32 == 0
    ensures (a + b) % Two32 == 0
  {
    assert a == Two32 * (a / Two32);
    assert b == Two32 * (b / Two32);
    assert a + b == Two32 * (a / Two32 + b / Two32);
  }

  lemma Congruent(a: int, b: int)
    requires (a - b) % Two32 == 0
    ensures a % Two32 == b % Two32
  {
    assert a - b == Two32 * ((a - b) / Two32);
  }

  lemma Times31Multiple(x: int)
    requires x % Two32 == 0
    ensures (31 * x) % Two32 == 0
  {
    var q := x / Two32;
    assert x == Two32 * q;
    assert 31 * x == Two32 * (31 * q);
  }

  /** Shifting, subtracting and truncating to 32 bits multiplies by 31 modulo 2^32. */
  lemma HashStepTimes31(h: int, hh: nat, c: int)
    requires h % Two32 == hh
    ensures HashStep(h, c) % Two32 == (c + 31 * hh) % Two32
  {
    var shifted := ToInt32(h * 32);
    var sum := c + (shifted - h);
    var a := ToInt32(sum) - sum;
    var b := shifted - h * 32;
    assert (h - hh) % Two32 == 0 by {
      assert h == Two32 * (h / Two32) + hh;
    }
    Times31Multiple(h - hh);
    var d := 31 * (h - hh);
    // HashStep(h, c) - (c + 31 * hh) is a sum of multiples of 2^32
    assert HashStep(h, c) - (c + 31 * hh) == a + b + d;
    MultipleSum(a, b);
    MultipleSum(a + b, d);
    Congruent(HashStep(h, c), c + 31 * hh);
  }

  /** The JavaScript loop and the reference hash agree modulo 2^32. */
  lemma {:induction false} JsHashIsHash(units: seq<int>)
    ensures JsHash(units) % Two32 == Hash(units)
  {
    if units != [] {
      var init := units[..|units| - 1];
      JsHashIsHash(init);
      HashStepTimes31(JsHash(init), Hash(init), units[|units| - 1]);
    }
  }

  /** The loop of `stringToColor` over the string's UTF-16 code units. */
  method StringHash(s: string) returns (h: int)
    ensures h == JsHash(Utf16(s))
    ensures h % Two32 == Hash(Utf16(s))
  {
    var units := Utf16(s);
    h := 0;
    var i := 0;
    while i < |units|
      invariant 0 <= i <= |units|
      invariant h == JsHash(units[..i])
    {
      assert units[..i + 1][..i] == units[..i];
      h := HashStep(h, units[i]);
      i := i + 1;
    }
    assert units[..|units|] == units;
    JsHashIsHash(units);
  }

  predicate IsHexDigit(c: char) {
    ('0' <= c <= '9') || ('A' <= c <= 'F')
  }

  /** The upper-case hex digit for `d`. */
  function HexDigit(d: nat): (c: char)
    requires d < 16
    ensures IsHexDigit(c)
  {
    if d < 10 then ('0' as int + d) as char else ('A' as int + d - 10) as char
  }

  /** `n.toString(16).toUpperCase()`. */
  function Hex(n: nat): (r: string)
    ensures |r| >= 1
    ensures forall k :: 0 <= k < |r| ==> IsHexDigit(r[k])
    decreases n
  {
    if n < 16 then [HexDigit(n)] else Hex(n / 16) + [HexDigit(n % 16)]
  }

  function DigitValue(c: char): nat {
    if '0' <= c <= '9' then c as nat - '0' as nat
    else if 'A' <= c <= 'F' then c as nat - 'A' as nat + 10
    else 0
  }

  /** The number a string of hex digits denotes. */
  function HexValue(s: string): nat {
    if s == [] then 0 else HexValue(s[..|s| - 1]) * 16 + DigitValue(s[|s| - 1])
  }

  function Pow16(k: nat): nat {
    if k == 0 then 1 else 16 * Pow16(k - 1)
  }

  lemma {:induction false} HexRoundTrip(n: nat)
    ensures HexValue(Hex(n)) == n
    decreases n
  {
    if n >= 16 {
      var r := Hex(n);
      assert r[..|r| - 1] == Hex(n / 16);
      HexRoundTrip(n / 16);
    }
  }

  lemma {:induction false} HexLength(n: nat, k: nat)
    requires k >= 1 && n < Pow16(k)
    ensures |Hex(n)| <= k
    decreases n
  {
    if n >= 16 {
      HexLength(n / 16, k - 1);
    }
  }

  lemma {:induction false} ZerosValue(z: string)
    requires forall k :: 0 <= k < |z| ==> z[k] == '0'
    ensures HexValue(z) == 0
    decreases |z|
  {
    if z != [] {
      ZerosValue(z[..|z| - 1]);
    }
  }

  /** Leading zeros do not change the value of a hex numeral. */
  lemma {:induction false} LeadingZeros(z: string, s: string)
    requires forall k :: 0 <= k < |z| ==> z[k] == '0'
    ensures HexValue(z + s) == HexValue(s)
    decreases |s|
  {
    if s == [] {
      assert z + s == z;
      ZerosValue(z);
    } else {
      var s' := s[..|s| - 1];
      assert (z + s)[..|z + s| - 1] == z + s';
      LeadingZeros(z, s');
    }
  }

  /** `'00000'.substring(0, 6 - color.length) + color` for a colour of at most six digits. */
  function PadTo6(hex: string): (r: string)
    requires 1 <= |hex| <= 6
    ensures |r| == 6
    ensures r[6 - |hex|..] == hex
    ensures forall k :: 0 <= k < 6 - |hex| ==> r[k] == '0'
  {
    "00000"[..6 - |hex|] + hex
  }

  /** `hash & 0x00FFFFFF` on an int32: its low 24 bits, which Euclidean remainder gives for negatives too. */
  function Low24(h: int): nat {
    h % 0x100_0000
  }

  lemma Low24OfMod(x: int)
    ensures Low24(x % Two32) == Low24(x)
  {
    var q := x / Two32;
    var m := x % Two32;
    assert x == 0x100_0000 * (0x100 * q) + m by {
      assert x == Two32 * q + m;
    }
    Low24AddMultiple(m, 0x100 * q);
  }

  lemma Low24AddMultiple(b: int, q: int)
    ensures Low24(0x100_0000 * q + b) == Low24(b)
  {
  }

  /**
   * `stringToColor`: `CCCCCC` for an absent, non-string or empty value;
   * otherwise six upper-case hex digits denoting the low 24 bits of the
   * reference hash of its UTF-16 code units.
   */
  function StringToColor(v: Option<string>): (r: string)
    ensures |r| == 6 && forall k :: 0 <= k < 6 ==> IsHexDigit(r[k])
    ensures v.None? || v.value == [] ==> r == "CCCCCC"
    ensures v.Some? && v.value != [] ==> HexValue(r) == Hash(Utf16(v.value)) % 0x100_0000
  {
    if v.None? || v.value == [] then "CCCCCC"
    else
      var units := Utf16(v.value);
      ColorDigits(units);
      PadTo6(Hex(Low24(JsHash(units))))
  }

  lemma Pow16Six()
    ensures Pow16(6) == 0x100_0000
  {
  }

  /** The padded hex numeral of the int32 hash's low 24 bits denotes the reference hash's low 24 bits. */
  lemma ColorDigits(units: seq<int>)
    ensures var hex := Hex(Low24(JsHash(units)));
      && |hex| <= 6
      && HexValue(PadTo6(hex)) == Hash(units) % 0x100_0000
  {
    var low := Low24(JsHash(units));
    assert |Hex(low)| <= 6 by {
      Pow16Six();
      HexLength(low, 6);
    }
    var hex := Hex(low);
    var r := PadTo6(hex);
    assert HexValue(r) == low by {
      assert r == r[..6 - |hex|] + hex;
      HexRoundTrip(low);
      LeadingZeros(r[..6 - |hex|], hex);
    }
    assert low == Hash(units) % 0x100_0000 by {
      JsHashIsHash(units);
      Low24OfMod(JsHash(units));
    }
  }

  // ---------------------------------------------------------------------------
  // Initials (line 185)
  // ---------------------------------------------------------------------------

  predicate InitialUnit(u: int) {
    ('A' as int <= u <= 'Z' as int) || ('0' as int <= u <= '9' as int)
  }

  /** `toUpperCase` on one code unit, ASCII letters only. */
  function UpperUnit(u: int): int {
    if 'a' as int <= u <= 'z' as int then u - 32 else u
  }

  function KeepInitials(us: seq<int>): (r: string)
    ensures |r| <= |us|
    ensures forall k :: 0 <= k < |r| ==> InitialUnit(r[k] as int)
  {
    if us == [] then []
    else
      var rest := KeepInitials(us[1..]);
      if InitialUnit(us[0]) then [us[0] as char] + rest else rest
  }

  /**
   * `String(name).substring(0, 2).toUpperCase().replace(/[^A-Z0-9]/g, '') || '??'`:
   * the letters and digits among the first two code units, upper-cased, or `??`.
   */
  function Initials(name: string): (r: string)
    ensures r == "??" || (1 <= |r| <= 2 && forall k :: 0 <= k < |r| ==> InitialUnit(r[k] as int))
  {
    var units := Utf16(name);
    var firstTwo := units[..if |units| < 2 then |units| else 2];
    var upper := seq(|firstTwo|, k requires 0 <= k < |firstTwo| => UpperUnit(firstTwo[k]));
    var kept := KeepInitials(upper);
    if kept == [] then "??" else kept
  }

  predicate Ascii(s: string) {
    forall k :: 0 <= k < |s| ==> s[k] as int < 0x80
  }

  lemma {:induction false} Utf16Ascii(s: string)
    requires Ascii(s)
    ensures Utf16(s) == seq(|s|, k requires 0 <= k < |s| => s[k] as int)
  {
    if s != [] {
      Utf16Ascii(s[1..]);
    }
  }

  predicate AlnumUpper(c: char) {
    ('A' <= c <= 'Z') || ('0' <= c <= '9')
  }

  /** The characters of `s` that are upper-case letters or digits, in order. */
  function Alnums(s: string): (r: string)
    ensures forall k :: 0 <= k < |r| ==> AlnumUpper(r[k])
  {
    if s == [] then [] else (if AlnumUpper(s[0]) then [s[0]] else []) + Alnums(s[1..])
  }

  /** For an ASCII name the initials are the upper-cased first two characters, letters and digits only. */
  lemma InitialsOfAsciiName(name: string)
    requires Ascii(name)
    ensures var two := name[..if |name| < 2 then |name| else 2];
      var kept := Alnums(Upper(two));
      Initials(name) == if kept == [] then "??" else kept
  {
    Utf16Ascii(name);
    var two := name[..if |name| < 2 then |name| else 2];
    var units := Utf16(name);
    var firstTwo := units[..if |units| < 2 then |units| else 2];
    assert |firstTwo| == |two|;
    var upper := seq(|firstTwo|, k requires 0 <= k < |firstTwo| => UpperUnit(firstTwo[k]));
    forall k | 0 <= k < |two|
      ensures upper[k] == Upper(two)[k] as int
    {
      assert firstTwo[k] == two[k] as int;
    }
    assert upper == seq(|two|, k requires 0 <= k < |two| => Upper(two)[k] as int);
    KeepAsAlnums(Upper(two));
  }

  lemma {:induction false} KeepAsAlnums(s: string)
    ensures KeepInitials(seq(|s|, k requires 0 <= k < |s| => s[k] as int)) == Alnums(s)
  {
    if s != [] {
      var us := seq(|s|, k requires 0 <= k < |s| => s[k] as int);
      assert us[1..] == seq(|s[1..]|, k requires 0 <= k < |s[1..]| => s[1..][k] as int);
      KeepAsAlnums(s[1..]);
    }
  }

  // ---------------------------------------------------------------------------
  // Selected ids from the query string (lines 49-53)
  // ---------------------------------------------------------------------------

  /** The query string without its leading `?`. */
  function DropQuestionMark(search: string): string {
    if |search| > 0 && search[0] == '?' then search[1..] else search
  }

  /** URLSearchParams turns `+` into a space; percent-decoding is not modelled. */
  function Decode(s: string): string {
    ReplaceChar(s, '+', ' ')
  }

  /** One `name=value` piece; a piece without `=` is a name with an empty value. */
  function Pair(piece: string): (string, string) {
    match Find(piece, "=")
    case Some(i) => (Decode(piece[..i]), Decode(piece[i + 1..]))
    case None => (Decode(piece), "")
  }

  /** The name/value pairs of a query string, in order; empty pieces are skipped. */
  function QueryPairs(search: string): seq<(string, string)> {
    var pieces := NonEmpty(Split(DropQuestionMark(search), "&"));
    seq(|pieces|, k requires 0 <= k < |pieces| => Pair(pieces[k]))
  }

  /** `urlParams.get(name)`: the first value with that name, or `null`. */
  function QueryGet(pairs: seq<(string, string)>, name: string): (r: Option<string>)
    ensures r.None? <==> forall k :: 0 <= k < |pairs| ==> pairs[k].0 != name
    ensures r.Some? ==>
      exists k :: 0 <= k < |pairs| && pairs[k] == (name, r.value) && forall j :: 0 <= j < k ==> pairs[j].0 != name
  {
    if pairs == [] then None
    else if pairs[0].0 == name then Some(pairs[0].1)
    else QueryGet(pairs[1..], name)
  }

  /**
   * `param ? param.split(',').filter(id => id) : []`. An empty parameter is
   * falsy, but splitting it would give nothing either.
   */
  function IdList(param: Option<string>): (r: seq<string>)
    ensures param.None? ==> r == []
    ensures param.Some? ==> r == NonEmpty(Split(param.value, ","))
    ensures forall k :: 0 <= k < |r| ==> r[k] != [] && ',' !in r[k]
  {
    if param.None? || param.value == [] then
      SplitWhole([], ',');
      []
    else
      var pieces := Split(param.value, ",");
      var r := NonEmpty(pieces);
      forall k | 0 <= k < |r| ensures ',' !in r[k] {
        var j :| 0 <= j < |pieces| && pieces[j] == r[k];
        FreeHasNoChar(pieces[j], ',');
      }
      r
  }

  /** A comma-free parameter is one id, or none when it is empty. */
  lemma IdListSingle(s: string)
    requires ',' !in s
    ensures IdList(Some(s)) == (if s == [] then [] else [s])
  {
    SplitWhole(s, ',');
    NonEmptySnoc([], s);
    assert [] + [s] == [s];
  }

  /** The ids on either side of a comma are read separately and kept in order. */
  lemma IdListAround(a: string, b: string)
    ensures IdList(Some(a + "," + b)) == IdList(Some(a)) + IdList(Some(b))
  {
    SplitAround(a, b, ',');
    NonEmptyAppend(Split(a, ","), Split(b, ","));
  }

  /** The query parameters naming the selected characters. */
  const PcIdsParam := "pc_ids"
  const NpcIdsParam := "npc_ids"

  /** The PC ids and NPC ids the scene page reads from its query string. */
  function SelectedIds(search: string): (seq<string>, seq<string>) {
    var pairs := QueryPairs(search);
    (IdList(QueryGet(pairs, PcIdsParam)), IdList(QueryGet(pairs, NpcIdsParam)))
  }

  // ---------------------------------------------------------------------------
  // Sorting the fetched characters (lines 85-92)
  // ---------------------------------------------------------------------------

  /** Taken as a PC: its id was selected as a PC id and its type is `"PC"`. */
  predicate PcPick(c: Character, pcIds: seq<string>) {
    c.id.Some? && c.id.value in pcIds && IsPc(c)
  }

  /** Taken as an NPC: not taken as a PC, and its id was selected as an NPC id. */
  predicate NpcPick(c: Character, pcIds: seq<string>, npcIds: seq<string>) {
    !PcPick(c, pcIds) && c.id.Some? && c.id.value in npcIds
  }

  /** The scene's PCs and NPCs, in the order the server listed them. */
  function Classify(all: seq<Character>, pcIds: seq<string>, npcIds: seq<string>): (r: (seq<Character>, seq<Character>))
    ensures |r.0| + |r.1| <= |all|
    ensures forall c :: c in r.0 ==> c in all && PcPick(c, pcIds)
    ensures forall c :: c in r.1 ==> c in all && NpcPick(c, pcIds, npcIds)
    ensures forall c :: c in all && PcPick(c, pcIds) ==> c in r.0
    ensures forall c :: c in all && NpcPick(c, pcIds, npcIds) ==> c in r.1
  {
    if all == [] then ([], [])
    else
      var c := all[|all| - 1];
      var init := all[..|all| - 1];
      assert all == init + [c];
      var (pcs, npcs) := Classify(init, pcIds, npcIds);
      if PcPick(c, pcIds) then (pcs + [c], npcs)
      else if NpcPick(c, pcIds, npcIds) then (pcs, npcs + [c])
      else (pcs, npcs)
  }

  /** One character lands in the PC list, the NPC list, or neither. */
  lemma ClassifySingle(c: Character, pcIds: seq<string>, npcIds: seq<string>)
    ensures Classify([c], pcIds, npcIds) ==
      if PcPick(c, pcIds) then ([c], [])
      else if NpcPick(c, pcIds, npcIds) then ([], [c])
      else ([], [])
  {
    assert [c][..0] == [];
    assert Classify([], pcIds, npcIds) == ([], []);
    assert [] + [c] == [c];
  }

  /** Sorting a concatenation sorts each side, so both lists keep the server's order. */
  lemma {:induction false} ClassifyAppend(xs: seq<Character>, ys: seq<Character>, pcIds: seq<string>, npcIds: seq<string>)
    ensures var (a, b, r) := (Classify(xs, pcIds, npcIds), Classify(ys, pcIds, npcIds), Classify(xs + ys, pcIds, npcIds));
      r.0 == a.0 + b.0 && r.1 == a.1 + b.1
    decreases |ys|
  {
    if ys == [] {
      assert xs + ys == xs;
    } else {
      var c := ys[|ys| - 1];
      var init := ys[..|ys| - 1];
      assert (xs + ys)[..|xs + ys| - 1] == xs + init;
      ClassifyAppend(xs, init, pcIds, npcIds);
    }
  }

  /** No character is both a scene PC and a scene NPC. */
  lemma ClassifyDisjoint(all: seq<Character>, pcIds: seq<string>, npcIds: seq<string>)
    ensures var r := Classify(all, pcIds, npcIds);
      forall c :: !(c in r.0 && c in r.1)
  {
  }

  // ---------------------------------------------------------------------------
  // The exchange committed to memory (lines 268-298)
  // ---------------------------------------------------------------------------

  /** A conversation-history entry `{speaker, text}`. */
  datatype Turn = Turn(speaker: string, text: string)

  const GmAction := "GM Action"

  /**
   * The source's choice of the exchange for `submit_memory`, branch for
   * branch. Each branch pushes at most two entries, so the trailing
   * `slice(-2)` of line 292 never changes the result.
   */
  function RelevantExchange(h: seq<Turn>, npcName: string): (r: seq<Turn>)
    ensures |r| <= 2
    ensures forall k :: 0 <= k < |r| ==> r[k] in h
  {
    var n := |h|;
    if n == 0 then []
    else
      var last := h[n - 1];
      if last.speaker == npcName && n > 1 then
        var second := h[n - 2];
        (if second.speaker != npcName && second.speaker != GmAction then [second] else []) + [last]
      else if last.speaker != npcName && last.speaker != GmAction && n > 1 then
        var second := h[n - 2];
        if second.speaker == npcName then [second, last]
        else if second.speaker != GmAction then [second, last]
        else [last]
      else if last.speaker != GmAction then [last]
      else []
  }

  /**
   * The reference reading of the exchange: the last entry unless it is a GM
   * action, preceded by the one before it unless that is a GM action or both
   * are the NPC's own lines.
   */
  function Exchange(h: seq<Turn>, npcName: string): (r: seq<Turn>)
    ensures |r| <= 2
    ensures forall k :: 0 <= k < |r| ==> r[k].speaker != GmAction
    ensures r != [] ==> |h| >= 1 && r[|r| - 1] == h[|h| - 1]
    ensures |r| == 2 ==> |h| >= 2 && r[0] == h[|h| - 2]
  {
    var n := |h|;
    if n == 0 || h[n - 1].speaker == GmAction then []
    else
      var last := h[n - 1];
      if n > 1 && h[n - 2].speaker != GmAction && !(h[n - 2].speaker == npcName && last.speaker == npcName)
      then [h[n - 2], last]
      else [last]
  }

  /**
   * For an NPC not itself named "GM Action", the source's branches compute
   * the reference exchange: at most the last two entries, in order, never a
   * GM action.
   */
  lemma RelevantExchangeIsExchange(h: seq<Turn>, npcName: string)
    requires npcName != GmAction
    ensures RelevantExchange(h, npcName) == Exchange(h, npcName)
  {
  }

  /**
   * For an NPC named "GM Action" whose history ends with its own line after
   * someone else's, the script sends both lines, while the reference drops
   * every entry by "GM Action" and sends nothing.
   */
  lemma GmActionNamedNpc(h: seq<Turn>)
    requires |h| >= 2 && h[|h| - 1].speaker == GmAction && h[|h| - 2].speaker != GmAction
    ensures RelevantExchange(h, GmAction) == [h[|h| - 2], h[|h| - 1]]
    ensures Exchange(h, GmAction) == []
  {
  }

  function TurnLine(t: Turn): string {
    t.speaker + ": " + t.text
  }

  /** The `speaker: text` line of each turn, in order. */
  function TurnLines(ex: seq<Turn>): (r: seq<string>)
    ensures |r| == |ex|
  {
    seq(|ex|, k requires 0 <= k < |ex| => TurnLine(ex[k]))
  }

  /**
   * The memory request payload: none when the exchange is empty (no request
   * is sent); otherwise the exchange as `speaker: text` lines joined by `\n`.
   * For an NPC not named "GM Action", nothing is sent exactly when the
   * history is empty or ends with a GM action.
   */
  function MemoryPayload(h: seq<Turn>, npcName: string): (r: Option<string>)
    ensures r.None? <==> RelevantExchange(h, npcName) == []
    ensures npcName != GmAction ==> (r.None? <==> h == [] || h[|h| - 1].speaker == GmAction)
    ensures r.Some? ==> r.value == Join(TurnLines(RelevantExchange(h, npcName)), "\n")
  {
    var ex := RelevantExchange(h, npcName);
    if ex == [] then None
    else Some(Join(TurnLines(ex), "\n"))
  }

  /**
   * When no speaker or text holds a line break, splitting the payload at line
   * breaks gives back one `speaker: text` line per turn of the exchange.
   */
  lemma MemoryPayloadLines(h: seq<Turn>, npcName: string)
    requires forall k :: 0 <= k < |h| ==> '\n' !in h[k].speaker && '\n' !in h[k].text
    requires MemoryPayload(h, npcName).Some?
    ensures Split(MemoryPayload(h, npcName).value, "\n") == TurnLines(RelevantExchange(h, npcName))
  {
    var ex := RelevantExchange(h, npcName);
    var lines := TurnLines(ex);
    forall k | 0 <= k < |lines|
      ensures '\n' !in lines[k]
    {
      var j :| 0 <= j < |h| && h[j] == ex[k];
      assert lines[k] == h[j].speaker + ": " + h[j].text;
    }
    SplitJoin(lines, '\n');
  }

  /** How much history the page sends (lines 307, 385). */
  const HistorySent := 10

  /** `history ? history.slice(-10) : []`: the last ten entries, in order. */
  function SentHistory(h: Option<seq<Turn>>): (r: seq<Turn>)
    ensures h.None? ==> r == []
    ensures h.Some? ==> |r| == (if |h.value| < HistorySent then |h.value| else HistorySent)
    ensures h.Some? ==> r == h.value[|h.value| - |r|..]
  {
    if h.None? then []
    else if |h.value| < HistorySent then h.value
    else h.value[|h.value| - HistorySent..]
  }

  // ---------------------------------------------------------------------------
  // Which log entries join the conversation history (lines 436-440)
  // ---------------------------------------------------------------------------

  /** The outer test of line 436. */
  predicate Recorded(npcId: Option<string>, speaker: string, text: string, kind: string, global: bool) {
    && !global && Truthy(npcId)
    && (kind == "npc" || kind == "gm"
        || (kind == "system" && speaker == "SYSTEM" && StartsWith(text, "Scene context:")))
  }

  /** `addDialogueEntryToNpcLog`'s effect on the per-NPC histories. */
  function Log(histories: map<string, seq<Turn>>, npcId: Option<string>, speaker: string, text: string,
               kind: string, global: bool): (r: map<string, seq<Turn>>)
    ensures !Recorded(npcId, speaker, text, kind, global) ==> r == histories
    ensures Recorded(npcId, speaker, text, kind, global) ==>
      var id := npcId.value;
      && r.Keys == histories.Keys + {id}
      && r[id] == (if id in histories then histories[id] else []) + [Turn(speaker, text)]
      && forall other :: other in histories && other != id ==> r[other] == histories[other]
  {
    if !global && Truthy(npcId)
       && (kind == "npc" || kind == "gm"
           || (kind == "system" && speaker == "SYSTEM" && StartsWith(text, "Scene context:")))
    then
      var id := npcId.value;
      var h := if id in histories then histories[id] else [];
      if !(kind == "system-info" && speaker == GmAction) then histories[id := h + [Turn(speaker, text)]]
      else histories[id := h]
    else histories
  }

  /** The GM-action notes of line 265 (type `system-info`) never enter any history. */
  lemma GmActionNotRecorded(histories: map<string, seq<Turn>>, npcId: Option<string>, text: string)
    ensures Log(histories, npcId, GmAction, text, "system-info", false) == histories
  {
  }
}
