/**
 * `DialogueService.generate_dialogue_for_npc_in_scene`: the prompt built from
 * an NPC profile, a scene and the recent conversation, the mapping of the
 * model's answer (text, block, nothing, exception) to the value returned, and
 * the cleanup of the generated line.
 *
 * The generative model is the parameter `model`; whether it was constructed
 * and whether an API key is configured are the two flags of `Service`.
 */
module DialogueService {
  import opened Wrappers
  import opened Text
  import opened PyJson

  /** An exception that escapes the method (raised before the `try`). */
  type Raised = string

  /** The profile dictionary as decoded from JSON. */
  type Profile = map<string, Json>

  /**
   * What Python supplies that the model does not compute: `repr` of a list or
   * dictionary, and the insertion order of a dictionary's keys.
   */
  datatype Host = Host(repr: Json -> string, keyOrder: map<string, Json> -> seq<string>)

  /** The constructed service: whether the model object exists, and the configured key. */
  datatype Service = Service(modelReady: bool, apiKey: Option<string>)

  /** One part of a model answer; a part may lack a `text` attribute. */
  datatype Part = Part(text: Option<string>)

  /** The answer's prompt feedback: `block_reason` (0 is unspecified, hence falsy) and its message. */
  datatype Feedback = Feedback(blockReason: nat, message: string)

  /** What `generate_content` does: raise, or answer with parts and optional feedback. */
  datatype Answer = Raises | Answer(parts: seq<Part>, feedback: Option<Feedback>)

  /** How many trailing history entries the prompt shows. */
  const HistoryWindow := 5

  /** How many leading backstory characters (or list items) the prompt shows. */
  const SnippetLength := 200

  function Min(a: nat, b: nat): nat {
    if a <= b then a else b
  }

  function Indicator(b: bool): nat {
    if b then 1 else 0
  }

  // ---------------------------------------------------------------------------
  // Prompt
  // ---------------------------------------------------------------------------

  /** One line of the prompt, before it is rendered to text. */
  datatype Line =
    | Intro
    | ProfileHeader
    | NameIs(name: string)
    | Appearance(text: string)
    | Traits(joined: string)
    | Backstory(snippet: string)
    | Motivations(text: string)
    | Flaws(text: string)
    | SceneHeader
    | Scene(text: string)
    | HistoryHeader
    | Entry(speaker: string, said: string)
    | TaskHeader
    | Task(who: string)
    | OutputOnly

  /** The text of each line (lines 53-77). */
  function Render(l: Line): string {
    match l
    case Intro => "You are an AI roleplaying assistant. Generate a single, immersive, in-character line of dialogue for an NPC in a tabletop roleplaying game based on the following information."
    case ProfileHeader => "\n--- NPC Profile ---"
    case NameIs(n) => "Name: " + n
    case Appearance(t) => "Appearance: " + t
    case Traits(j) => "Personality Traits: " + j
    case Backstory(b) => "Relevant Backstory Snippet: " + b + "..."
    case Motivations(t) => "Motivations: " + t
    case Flaws(t) => "Flaws/Weaknesses: " + t
    case SceneHeader => "\n--- Current Scene Context ---"
    case Scene(t) => t
    case HistoryHeader => "\n--- Recent Conversation History (most recent last) ---"
    case Entry(sp, t) => sp + ": " + t
    case TaskHeader => "\n--- Task ---"
    case Task(who) =>
      "Considering all the above, generate one plausible and engaging line of dialogue that "
      + who
      + " would say now. The line should be a direct quote. Do not add narration or actions, only the spoken dialogue."
    case OutputOnly => "Output only the dialogue line itself."
  }

  /** `npc_profile.get(k)` is truthy: the field gets a line. */
  predicate Present(p: Profile, k: string) {
    Truthy(Get(p, k))
  }

  /** The characters of a string, one string each (what iterating a `str` yields). */
  function Chars(s: string): (r: seq<string>)
    ensures |r| == |s|
    ensures forall i :: 0 <= i < |s| ==> r[i] == [s[i]]
  {
    seq(|s|, i requires 0 <= i < |s| => [s[i]])
  }

  predicate AllStrings(xs: seq<Json>) {
    forall i :: 0 <= i < |xs| ==> xs[i].JStr?
  }

  /** The strings of a list whose items are all strings. */
  function Strs(xs: seq<Json>): (r: seq<string>)
    requires AllStrings(xs)
    ensures |r| == |xs| && forall i :: 0 <= i < |xs| ==> JStr(r[i]) == xs[i]
  {
    seq(|xs|, i requires 0 <= i < |xs| => xs[i].s)
  }

  /** `', '.join(v)`: a list of strings, the characters of a string, or a dictionary's keys. */
  function JoinTraits(v: Json, host: Host): (r: Result<string, Raised>)
    ensures r.Success? <==> v.JStr? || v.JObj? || (v.JList? && AllStrings(v.items))
    ensures v.JList? && AllStrings(v.items) ==> r == Success(Join(Strs(v.items), ", "))
  {
    match v
    case JStr(s) => Success(Join(Chars(s), ", "))
    case JList(xs) =>
      if AllStrings(xs) then Success(Join(Strs(xs), ", "))
      else Failure("TypeError: sequence item: expected str instance")
    case JObj(m) => Success(Join(host.keyOrder(m), ", "))
    case _ => Failure("TypeError: can only join an iterable")
  }

  /** `v[:200]` shown in an f-string: a string's first 200 characters, or the repr of a list's first 200 items. */
  function Snippet(v: Json, host: Host): (r: Result<string, Raised>)
    ensures r.Success? <==> v.JStr? || v.JList?
    ensures v.JStr? ==> r.Success? && |r.value| == Min(|v.s|, SnippetLength) && StartsWith(v.s, r.value)
  {
    match v
    case JStr(s) => Success(s[..Min(|s|, SnippetLength)])
    case JList(xs) => Success(host.repr(JList(xs[..Min(|xs|, SnippetLength)])))
    case _ => Failure("TypeError: object is not subscriptable")
  }

  function CountPresent(p: Profile): nat {
    Indicator(Present(p, "appearance")) + Indicator(Present(p, "personality_traits"))
    + Indicator(Present(p, "backstory")) + Indicator(Present(p, "motivations"))
    + Indicator(Present(p, "flaws"))
  }

  /** The shown name, `npc_profile.get('name', fallback)` in an f-string. */
  function ShownName(p: Profile, fallback: string, host: Host): string {
    PyStr(GetOr(p, "name", JStr(fallback)), host.repr)
  }

  /** A field's `str()`, when the field is truthy. */
  function Shown(p: Profile, k: string, host: Host): (r: seq<string>)
    ensures |r| == Indicator(Present(p, k))
  {
    if Present(p, k) then [PyStr(p[k], host.repr)] else []
  }

  /** The joined traits, when the traits are truthy; joining them may raise. */
  function TraitsText(p: Profile, host: Host): (r: Result<seq<string>, Raised>)
    ensures r.Success? <==> !Present(p, "personality_traits") || JoinTraits(p["personality_traits"], host).Success?
    ensures r.Success? ==> |r.value| == Indicator(Present(p, "personality_traits"))
    ensures r.Success? && Present(p, "personality_traits") ==>
      r.value == [JoinTraits(p["personality_traits"], host).value]
  {
    if !Present(p, "personality_traits") then Success([])
    else
      var j :- JoinTraits(p["personality_traits"], host);
      Success([j])
  }

  /** The backstory snippet, when the backstory is truthy; slicing it may raise. */
  function BackstoryText(p: Profile, host: Host): (r: Result<seq<string>, Raised>)
    ensures r.Success? <==> !Present(p, "backstory") || Snippet(p["backstory"], host).Success?
    ensures r.Success? ==> |r.value| == Indicator(Present(p, "backstory"))
    ensures r.Success? && Present(p, "backstory") ==>
      r.value == [Snippet(p["backstory"], host).value]
  {
    if !Present(p, "backstory") then Success([])
    else
      var b :- Snippet(p["backstory"], host);
      Success([b])
  }

  /** The profile block renders without raising: the traits join and the backstory slices. */
  predicate ProfileRenders(p: Profile, host: Host) {
    && (!Present(p, "personality_traits") || JoinTraits(p["personality_traits"], host).Success?)
    && (!Present(p, "backstory") || Snippet(p["backstory"], host).Success?)
  }

  /**
   * The profile block (lines 55-65): the name line, then one line for each
   * truthy field among appearance, traits, backstory, motivations and flaws.
   * Only the traits and the backstory can raise, traits first.
   */
  function ProfileLines(p: Profile, host: Host): (r: Result<seq<Line>, Raised>)
    ensures r.Success? <==> ProfileRenders(p, host)
    ensures r.Success? ==> |r.value| == 1 + CountPresent(p)
    ensures r.Success? ==> r.value[0] == NameIs(ShownName(p, "NPC", host))
  {
    var traits :- TraitsText(p, host);
    var backstory :- BackstoryText(p, host);
    var appearance := Shown(p, "appearance", host);
    var motivations := Shown(p, "motivations", host);
    var flaws := Shown(p, "flaws", host);
    Success([NameIs(ShownName(p, "NPC", host))]
      + seq(|appearance|, i requires 0 <= i < |appearance| => Appearance(appearance[i]))
      + seq(|traits|, i requires 0 <= i < |traits| => Traits(traits[i]))
      + seq(|backstory|, i requires 0 <= i < |backstory| => Backstory(backstory[i]))
      + seq(|motivations|, i requires 0 <= i < |motivations| => Motivations(motivations[i]))
      + seq(|flaws|, i requires 0 <= i < |flaws| => Flaws(flaws[i])))
  }

  /**
   * A truthy backstory that is a string is shown by its first
   * `min(200, |backstory|)` characters (and `...`), right after the name,
   * appearance and traits lines.
   */
  lemma BackstorySnippetLine(p: Profile, host: Host)
    requires ProfileLines(p, host).Success?
    requires "backstory" in p && p["backstory"].JStr? && p["backstory"].s != ""
    ensures var lines := ProfileLines(p, host).value;
      var i := 1 + Indicator(Present(p, "appearance")) + Indicator(Present(p, "personality_traits"));
      var b := p["backstory"].s;
      && i < |lines|
      && lines[i] == Backstory(b[..Min(|b|, SnippetLength)])
  {
  }

  /**
   * Traits given as a list of strings are shown joined with `", "`, right after
   * the name and appearance lines; an empty list is falsy and gives no line.
   */
  lemma TraitsJoinedLine(p: Profile, host: Host)
    requires ProfileLines(p, host).Success?
    requires "personality_traits" in p && p["personality_traits"].JList?
    ensures var xs := p["personality_traits"].items;
      var lines := ProfileLines(p, host).value;
      var i := 1 + Indicator(Present(p, "appearance"));
      && (xs == [] ==> !Present(p, "personality_traits") && forall l :: l in lines ==> !l.Traits?)
      && (xs != [] ==>
            && AllStrings(xs) && i < |lines|
            && lines[i] == Traits(Join(Strs(xs), ", ")))
  {
  }

  /** `f"{entry.get('speaker', 'Unknown')}: {entry.get('text', '')}"`. */
  function EntryOf(e: map<string, Json>, host: Host): Line {
    Entry(PyStr(GetOr(e, "speaker", JStr("Unknown")), host.repr), PyStr(GetOr(e, "text", JStr("")), host.repr))
  }

  /** The entries the prompt shows: `history[-5:]`. */
  function Recent(xs: seq<Json>): (r: seq<Json>)
    ensures |r| == Min(|xs|, HistoryWindow)
    ensures forall k :: 0 <= k < |r| ==> r[k] == xs[|xs| - |r| + k]
  {
    xs[|xs| - Min(|xs|, HistoryWindow)..]
  }

  predicate AllDicts(xs: seq<Json>) {
    forall i :: 0 <= i < |xs| ==> xs[i].JObj?
  }

  /** History that renders without raising: falsy, or a list whose last five entries are dictionaries. */
  predicate HistoryRenders(history: Json) {
    !Truthy(history) || (history.JList? && AllDicts(Recent(history.items)))
  }

  /**
   * The history block (lines 70-73): nothing for falsy history; otherwise the
   * header and one line per recent entry. An entry that is not a dictionary
   * has no `.get` and raises; so does slicing anything but a list.
   */
  function HistoryLines(history: Json, host: Host): (r: Result<seq<Line>, Raised>)
    ensures r.Success? <==> HistoryRenders(history)
    ensures !Truthy(history) ==> r == Success([])
    ensures r.Success? && Truthy(history) ==>
      var recent := Recent(history.items);
      && |r.value| == 1 + |recent|
      && r.value[0] == HistoryHeader
      && forall k :: 0 <= k < |recent| ==> r.value[1 + k] == EntryOf(recent[k].fields, host)
  {
    if !Truthy(history) then Success([])
    else if !history.JList? then Failure("TypeError: history cannot be sliced into entries")
    else
      var recent := Recent(history.items);
      if !AllDicts(recent) then Failure("AttributeError: entry has no attribute 'get'")
      else Success([HistoryHeader] + seq(|recent|, k requires 0 <= k < |recent| => EntryOf(recent[k].fields, host)))
  }

  /**
   * All prompt lines (lines 52-77). A scene that is not a string makes the
   * final join raise, after the profile and history have been rendered.
   */
  function PromptLines(p: Profile, scene: Json, history: Json, host: Host): (r: Result<seq<Line>, Raised>)
    ensures r.Success? <==> ProfileRenders(p, host) && HistoryRenders(history) && scene.JStr?
  {
    var profile :- ProfileLines(p, host);
    var recent :- HistoryLines(history, host);
    if !scene.JStr? then Failure("TypeError: sequence item: expected str instance")
    else Success([Intro, ProfileHeader] + profile + [SceneHeader, Scene(scene.s)] + recent
                 + [TaskHeader, Task(ShownName(p, "the NPC", host)), OutputOnly])
  }

  /** `"\n".join(prompt_lines)` (line 79). */
  function Prompt(p: Profile, scene: Json, history: Json, host: Host): Result<string, Raised> {
    var lines :- PromptLines(p, scene, history, host);
    Success(Join(seq(|lines|, i requires 0 <= i < |lines| => Render(lines[i])), "\n"))
  }

  /**
   * The layout of the prompt: the intro and profile header, the profile block
   * starting with the name, the scene header and the scene itself, the history
   * block when history is truthy, and the three task lines last.
   */
  lemma PromptLayout(p: Profile, scene: Json, history: Json, host: Host)
    requires PromptLines(p, scene, history, host).Success?
    ensures scene.JStr?
    ensures var lines := PromptLines(p, scene, history, host).value;
      var n := 1 + CountPresent(p);
      var h := if Truthy(history) then 1 + Min(|history.items|, HistoryWindow) else 0;
      && |lines| == 2 + n + 2 + h + 3
      && lines[0] == Intro && lines[1] == ProfileHeader
      && lines[2] == NameIs(ShownName(p, "NPC", host))
      && lines[2 + n] == SceneHeader && lines[3 + n] == Scene(scene.s)
      && (Truthy(history) ==> lines[4 + n] == HistoryHeader)
      && lines[|lines| - 3] == TaskHeader
      && lines[|lines| - 2] == Task(ShownName(p, "the NPC", host))
      && lines[|lines| - 1] == OutputOnly
  {
  }

  /**
   * The history lines of the prompt are the last `min(5, |history|)` entries,
   * in their original order, each as `speaker: text`.
   */
  lemma PromptHistory(p: Profile, scene: Json, history: Json, host: Host, k: nat)
    requires PromptLines(p, scene, history, host).Success?
    requires Truthy(history)
    requires k < Min(|history.items|, HistoryWindow)
    ensures history.JList?
    ensures var lines := PromptLines(p, scene, history, host).value;
      var n := |history.items|;
      var e := history.items[n - Min(n, HistoryWindow) + k];
      && e.JObj?
      && 6 + CountPresent(p) + k < |lines|
      && lines[6 + CountPresent(p) + k] == EntryOf(e.fields, host)
  {
    var recent := HistoryLines(history, host).value;
    var lines := PromptLines(p, scene, history, host).value;
    var head := [Intro, ProfileHeader] + ProfileLines(p, host).value + [SceneHeader, Scene(scene.s)];
    assert lines == head + recent + [TaskHeader, Task(ShownName(p, "the NPC", host)), OutputOnly];
    assert lines[|head| + 1 + k] == recent[1 + k];
    var r := Recent(history.items);
    assert recent[1 + k] == EntryOf(r[k].fields, host);
    assert r[k] == history.items[|history.items| - |r| + k];
  }

  // ---------------------------------------------------------------------------
  // Cleanup of the generated line
  // ---------------------------------------------------------------------------

  /** `"".join(part.text for part in parts if hasattr(part, 'text'))`. */
  function PartsText(parts: seq<Part>): string {
    if parts == [] then ""
    else
      var rest := PartsText(parts[1..]);
      match parts[0].text
      case Some(t) => t + rest
      case None => rest
  }

  /** The text starts with `name:`, compared in lower case. */
  predicate EchoesName(t: string, name: string) {
    StartsWith(Lower(t), Lower(name) + ":")
  }

  /** The text starts and ends with the same quote character (one character counts as both ends). */
  predicate Quoted(t: string) {
    |t| >= 1 && ((t[0] == '"' && t[|t| - 1] == '"') || (t[0] == '\'' && t[|t| - 1] == '\''))
  }

  /** Drops a leading `name:` (case-insensitive) and the whitespace after it (lines 110-111). */
  function DropName(t: string, name: string): (r: string)
    ensures EchoesName(t, name) ==> |name| + 1 <= |t| && r == Strip(Python, t[|name| + 1..])
    ensures !EchoesName(t, name) ==> r == t
    ensures IsSlice(r, t)
  {
    if EchoesName(t, name) then
      var w := t[|name| + 1..];
      SliceAt(w, t, |name| + 1);
      StripSlice(Python, w);
      SliceOfSlice(Strip(Python, w), w, t);
      Strip(Python, w)
    else
      SliceAt(t, t, 0);
      t
  }

  /** Drops one layer of matching quotes (lines 113-115); `'"'[1:-1]` is the empty string. */
  function Unquote(t: string): (r: string)
    ensures Quoted(t) ==> r == (if |t| >= 2 then t[1..|t| - 1] else "")
    ensures !Quoted(t) ==> r == t
    ensures IsSlice(r, t)
  {
    if !Quoted(t) then
      SliceAt(t, t, 0);
      t
    else if |t| >= 2 then
      SliceAt(t[1..|t| - 1], t, 1);
      t[1..|t| - 1]
    else
      SliceAt("", t, 0);
      ""
  }

  /**
   * The cleanup of lines 108-115 applied to the joined text: strip, drop an
   * echoed `name:`, drop one quote layer. It only ever cuts the text.
   */
  function Cleanup(text: string, name: string): (r: string)
    ensures IsSlice(r, text)
  {
    var t := Strip(Python, text);
    var u := DropName(t, name);
    var v := Unquote(u);
    StripSlice(Python, text);
    SliceOfSlice(u, t, text);
    SliceOfSlice(v, u, text);
    v
  }

  /** `shown + ":" + rest` echoes any name equal to `shown` up to case, and cutting the echo leaves `rest`. */
  lemma EchoCut(shown: string, name: string, rest: string)
    requires Lower(shown) == Lower(name)
    ensures EchoesName(shown + ":" + rest, name)
    ensures (shown + ":" + rest)[|name| + 1..] == rest
  {
    var t := shown + ":" + rest;
    assert |shown| == |name|;
    assert Lower(t)[..|name| + 1] == Lower(name) + ":" by {
      forall k | 0 <= k < |name| + 1
        ensures Lower(t)[k] == (Lower(name) + ":")[k]
      {
        if k < |name| {
          assert Lower(t)[k] == LowerChar(shown[k]) == Lower(shown)[k];
        }
      }
    }
  }

  /**
   * The echo `Name: "line"` the prompt tries to prevent comes back as the
   * bare line, whatever the line holds and however the name is cased.
   */
  lemma CleanupRoundTrip(name: string, shown: string, line: string, q: char)
    requires Lower(shown) == Lower(name)
    requires shown == [] || !IsSpace(Python, shown[0])
    requires q == '"' || q == '\''
    ensures Cleanup(shown + ": " + ([q] + line + [q]), name) == line
  {
    var quoted := [q] + line + [q];
    var text := shown + ": " + quoted;
    assert Unquote(quoted) == line by {
      assert Quoted(quoted);
      assert quoted[1..|quoted| - 1] == line;
    }
    assert DropName(Strip(Python, text), name) == quoted by {
      EchoedLine(name, shown, quoted);
    }
  }

  lemma Regroup(shown: string, quoted: string)
    ensures shown + ": " + quoted == shown + ":" + (" " + quoted)
  {
  }

  /** The echoed, stripped text loses the echo and the blank after it. */
  lemma EchoedLine(name: string, shown: string, quoted: string)
    requires Lower(shown) == Lower(name)
    requires shown == [] || !IsSpace(Python, shown[0])
    requires |quoted| >= 1 && !IsSpace(Python, quoted[|quoted| - 1])
    requires !IsSpace(Python, quoted[0])
    ensures var text := shown + ": " + quoted;
      Strip(Python, text) == text && DropName(text, name) == quoted
  {
    Regroup(shown, quoted);
    var text := shown + ":" + (" " + quoted);
    assert text[0] == (if shown == [] then ':' else shown[0]);
    assert text[|text| - 1] == quoted[|quoted| - 1];
    StripIdentity(Python, text);
    EchoCut(shown, name, " " + quoted);
    assert " " + quoted == " " + quoted + [];
    assert AllSpace(Python, " ");
    StripPadded(Python, " ", quoted, []);
  }

  /**
   * Blanks and one quote layer around a reply that does not echo the name
   * are removed, and nothing else is.
   */
  lemma CleanupPadded(w1: string, line: string, w2: string, q: char, name: string)
    requires AllSpace(Python, w1) && AllSpace(Python, w2)
    requires q == '"' || q == '\''
    requires !EchoesName([q] + line + [q], name)
    ensures Cleanup(w1 + ([q] + line + [q]) + w2, name) == line
  {
    var quoted := [q] + line + [q];
    StripPadded(Python, w1, quoted, w2);
    assert quoted[1..|quoted| - 1] == line;
  }

  /** A reply with surrounding blanks and single quotes comes back bare. */
  lemma CleanupStripsBlanksAndQuotes()
    ensures Cleanup("  'Hello there.'  ", "NPC") == "Hello there."
  {
    var line := "Hello there.";
    assert "  'Hello there.'  " == "  " + (['\''] + line + ['\'']) + "  ";
    assert Lower(['\''] + line + ['\''])[0] == '\'';
    CleanupPadded("  ", line, "  ", '\'', "NPC");
  }

  // ---------------------------------------------------------------------------
  // The whole call
  // ---------------------------------------------------------------------------

  /** `not self.gemini_api_key`. */
  predicate KeyMissing(key: Option<string>) {
    key.None? || key.value == ""
  }

  /** The text returned when the prompt was blocked (line 124). */
  function BlockedNotice(message: string): string {
    "[AI content generation blocked: " + message + "]"
  }

  /** The value returned for an answer (lines 107-130); `None` stands for Python's None. */
  function Outcome(p: Profile, answer: Answer): (r: Option<string>)
    ensures answer.Raises? ==> r == None
    ensures answer.Answer? && answer.parts == [] ==>
      && (r.Some? <==> answer.feedback.Some? && answer.feedback.value.blockReason != 0)
      && (r.Some? ==> r.value == BlockedNotice(answer.feedback.value.message))
    ensures answer.Answer? && answer.parts != [] ==>
      && (r.Some? <==> GetOr(p, "name", JStr("NPC")).JStr?)
      && (r.Some? ==> IsSlice(r.value, PartsText(answer.parts)))
      && (r.Some? ==> r.value == Cleanup(PartsText(answer.parts), GetOr(p, "name", JStr("NPC")).s))
  {
    match answer
    case Raises => None
    case Answer(parts, feedback) =>
      if parts != [] then
        var name := GetOr(p, "name", JStr("NPC"));
        // `.lower()` on a name that is not a string raises inside the `try`.
        if !name.JStr? then None
        else Some(Cleanup(PartsText(parts), name.s))
      else if feedback.Some? && feedback.value.blockReason != 0 then Some(BlockedNotice(feedback.value.message))
      else None
  }

  /**
   * The method: no model or no key returns None before any prompt exists;
   * otherwise the prompt is built (which may raise) and the answer to it mapped.
   */
  function Generate(svc: Service, p: Profile, scene: Json, history: Json, host: Host,
                    model: string -> Answer): (r: Result<Option<string>, Raised>)
    ensures !svc.modelReady || KeyMissing(svc.apiKey) ==> r == Success(None)
    ensures svc.modelReady && !KeyMissing(svc.apiKey) ==>
      (r.Success? <==> ProfileRenders(p, host) && HistoryRenders(history) && scene.JStr?)
    ensures svc.modelReady && !KeyMissing(svc.apiKey) && r.Success? ==>
      Prompt(p, scene, history, host).Success?
      && r.value == Outcome(p, model(Prompt(p, scene, history, host).value))
  {
    if !svc.modelReady then Success(None)
    else if KeyMissing(svc.apiKey) then Success(None)
    else
      var prompt :- Prompt(p, scene, history, host);
      Success(Outcome(p, model(prompt)))
  }

  /** An answer of one part `Name: "line"`, in any casing of the name, comes out as the line. */
  lemma OutcomeEchoedLine(p: Profile, name: string, shown: string, line: string, q: char, fb: Option<Feedback>)
    requires GetOr(p, "name", JStr("NPC")) == JStr(name)
    requires Lower(shown) == Lower(name)
    requires shown == [] || !IsSpace(Python, shown[0])
    requires q == '"' || q == '\''
    ensures Outcome(p, Answer([Part(Some(shown + ": " + ([q] + line + [q])))], fb)) == Some(line)
  {
    var text := shown + ": " + ([q] + line + [q]);
    assert PartsText([Part(Some(text))]) == text by {
      assert [Part(Some(text))][1..] == [];
    }
    CleanupRoundTrip(name, shown, line, q);
  }

  /**
   * End to end: when the model echoes the NPC's name before a quoted line, in
   * one part and in any casing, the method returns just the line.
   */
  lemma GenerateEchoedLine(svc: Service, p: Profile, scene: Json, history: Json, host: Host,
                           model: string -> Answer, name: string, shown: string, line: string,
                           q: char, fb: Option<Feedback>)
    requires svc.modelReady && !KeyMissing(svc.apiKey)
    requires ProfileRenders(p, host) && HistoryRenders(history) && scene.JStr?
    requires GetOr(p, "name", JStr("NPC")) == JStr(name)
    requires Lower(shown) == Lower(name)
    requires shown == [] || !IsSpace(Python, shown[0])
    requires q == '"' || q == '\''
    requires forall prompt :: model(prompt) == Answer([Part(Some(shown + ": " + ([q] + line + [q])))], fb)
    ensures Generate(svc, p, scene, history, host, model) == Success(Some(line))
  {
    var r := Generate(svc, p, scene, history, host, model);
    var prompt := Prompt(p, scene, history, host).value;
    assert r.value == Outcome(p, model(prompt));
    OutcomeEchoedLine(p, name, shown, line, q, fb);
  }
}
