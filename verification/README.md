# BugbearBanter core in Dafny

BugbearBanter is a tabletop-RPG companion. A game master loads NPC sheets
into a MongoDB collection, picks player characters (PCs) and NPCs for a
scene, and asks a language model to speak for the NPCs. This project models
the core of that system as pure Dafny functions and proves properties about
them. It covers three parts.

- **The NPC loader** (`load_npc_data.py`). It turns a JSON sheet into the
  stored document. That covers the id-priority rule, the slugged id with a
  uuid suffix when the id collides, traits that are a comma-separated
  string, the special sheet layout of Vuthausk, the clean-up of empty
  fields, the insert/update/unchanged/skip counters, the past-life souls that
  Vuthausk's sheet lists (stored as records linked to `vuthausk_<name slug>`), and the
  summary totals. Module `LoadNpcData`.
- **The dialogue service** (`dialogue_service.py`).
  - It lays out the prompt: the profile lines, the scene, a history
    window of five entries, and the instruction.
  - It cleans the model's answer: strip, cut an echoed `Name:`, drop one
    pair of surrounding quotes.
  - It separates the outcomes: a missing key or model, a blocked prompt,
    an empty answer, and a failed call.
  - Module `DialogueService`.
- **The browser scripts**:
  - the scene page (`scene.js`): HTML escaping, the avatar colour hash,
    initials, reading `pc_ids`/`npc_ids` from the URL, choosing the scene
    cast, the exchange submitted to memory, the history window of ten
    turns, and the rule for which log entries enter an NPC's history.
    Module `Scene`.
  - the scene selector (`npc-selector.js`): the PC/NPC checkbox lists, the
    "none available" notices, splitting the checked boxes, and the URL of
    the scene page. Module `NpcSelector`.
  - the dashboard (`dashboard.js`): ownership tags and edit rights, the
    allow-list of editable fields, the world-item form with its list
    fields, the create-or-update route, and first-letter capitalisation.
    Module `Dashboard`.
  - registration (`auth.js`): password match and minimum length, and the
    payload without the confirmation field. Module `Auth`.

Shared modules:
- `Wrappers`: `Option` and `Result`.
- `Text`: whitespace stripping under Python's and JavaScript's notions of
  whitespace, splitting and joining, ASCII case mapping, UTF-16 code
  units. Stripping is defined once as `Trim` over any character test, and
  `Strip` instantiates it with each runtime's whitespace.
- `PyJson`: decoded JSON with Python truthiness, `==` and `str()`.
- `Characters`: the character record the scripts receive, and the PC/NPC
  partition.
- `Forms`: `Object.fromEntries` and assignment loops over form entries,
  where the last entry wins.

Everything outside the program enters as a parameter:
- the database: `findOne`, the upsert outcome, `uuid4`;
- Python's `repr` of lists and dictionaries;
- the language model's answer;
- the order of the checked boxes in the document.

JavaScript integer arithmetic is written out explicitly. `(hash << 5) - hash`
and `hash & hash` wrap to a signed 32-bit integer, and the model proves that
this wrapped hash agrees modulo 2^32 with the plain polynomial hash. String
lengths and `charCodeAt` count UTF-16 code units.

The dialogue service's prompt has no fallback sentence for empty traits and
no placeholder for a missing profile field: an empty or missing field gives
no line at all. The answer clean-up cuts only a `Name:` prefix and one pair
of quotes, so other preambles such as "dialogue:" stay in the text. An
answer whose text is empty gives an empty string. Every other failure
returns `None`, so callers cannot tell those failures apart. Exceptions
raised while the profile is rendered, before the `try`, escape the function.

## Model

| member | source | states |
|---|---|---|
| Text.Strip | server/app/services/dialogue_service.py:108 | the result has no whitespace at either end and is empty exactly when the input is all whitespace |
| Text.StripAt | server/app/services/dialogue_service.py:108 | unless the input is all whitespace, the result is exactly the input between its leading and its trailing whitespace run |
| Text.StripAvoids | server/load_npc_data.py:68 | a character absent from the input is absent from the stripped text |
| Text.StripSpacePrefix | server/app/services/dialogue_service.py:108 | whitespace put in front of a string is removed again by stripping |
| Text.StripSlice | server/app/services/dialogue_service.py:111 | stripping yields a contiguous piece of the input |
| Text.StripIdempotent | server/app/services/dialogue_service.py:108 | stripping a stripped string changes nothing |
| Text.StripPadded | server/app/services/dialogue_service.py:108 | surrounding any non-blank-edged text with whitespace and stripping gives the text back |
| Text.Split | server/load_npc_data.py:68 | `str.split` with a non-empty separator: at least one piece, no piece holds the separator, and joining the pieces with it rebuilds the input |
| Text.SplitJoin | server/static/js/scene.js:52 | splitting the join of separator-free parts gives the parts back |
| Text.NonEmpty | server/static/js/scene.js:52-53 | `.filter(id => id)` keeps exactly the non-empty items: every kept item is a non-empty input item, every non-empty input item is kept, and nothing changes when none is empty |
| Text.NonEmptyAppend | server/static/js/scene.js:52-53 | filtering a concatenation filters each side, so kept items stay in input order |
| Text.NonEmptySnoc | server/static/js/scene.js:52-53 | one more item adds itself at the end exactly when it is non-empty |
| Text.SplitAround | server/static/js/scene.js:52 | splitting on a one-character separator treats the text on either side of an occurrence separately |
| Text.SplitWhole | server/static/js/scene.js:52 | text without the separator splits into itself alone |
| Text.CommaList | server/load_npc_data.py:68 | the comma-list parse yields items that are non-empty, already stripped and comma-free |
| Text.CommaListPieces | server/load_npc_data.py:68 | the items are exactly the non-empty stripped pieces of the text split on commas: each item is one, and each one is an item |
| Text.CommaListAround | server/load_npc_data.py:68 | the items of `a + "," + b` are those of `a` followed by those of `b` |
| Text.CommaListSingle | server/load_npc_data.py:68 | comma-free text gives its stripped self as the one item, or nothing when it is blank |
| Text.CommaListJoin | server/static/js/dashboard.js:542 | a list of clean items joined with ", " parses back to the same list |
| Text.Utf16 | server/static/js/scene.js:232-233 | each character gives one or two code units below 0x10000, so the unit length is at least the character count |
| Characters.Partition | server/static/js/dashboard.js:157-163 | the PC and NPC lists split the characters as a multiset; the first holds only type "PC" and the second none |
| Characters.PartitionKeepsOrder | server/static/js/npc-selector.js:40-46 | the one-pass partition equals the order-preserving filters for PC and non-PC |
| Forms.FromEntries | server/static/js/auth.js:79 | the keys are exactly the entry names, and each value is the one of the last entry with that name |
| Forms.FromEntriesSnoc | server/static/js/dashboard.js:258-262 | one more entry overrides exactly its own key |
| LoadNpcData.Slug | server/load_npc_data.py:42 | same length; each space or hyphen becomes an underscore and every other character is lower-cased, so no space, hyphen or upper-case letter is left |
| LoadNpcData.CandidateId | server/load_npc_data.py:42-49 | the candidate id is the slug of the file stem, then "_soul_" for a soul or "_" otherwise, then the name slug, cut to its first 20 characters only for a soul |
| LoadNpcData.CandidateIdSeparates | server/load_npc_data.py:42-49 | in one file, records of the same kind get the same candidate exactly when their name slugs are equal, for souls whose slugs have at most 20 characters |
| LoadNpcData.CandidateIdSoulCut | server/load_npc_data.py:46-47 | two souls whose long name slugs share their first 20 characters get the same candidate |
| LoadNpcData.GeneratedId | server/load_npc_data.py:50-57 | the id extends the candidate; it is the candidate exactly when no record with a different name owns it, and otherwise the candidate plus "_" and the uuid |
| LoadNpcData.ChooseId | server/load_npc_data.py:35-59 | a truthy `_id` wins, then a truthy `id`, then the generated id; the chosen id is always truthy |
| LoadNpcData.NormalizeTraits | server/load_npc_data.py:66-72 | traits become a list: a string is split on commas with items stripped and blank ones dropped, a list is kept, and any other value gives the caller's fallback (an empty list on an ordinary sheet) |
| LoadNpcData.NormalizeTraitsAround | server/load_npc_data.py:67-68 | a trait string joined by a comma yields the traits of its two sides, in order |
| LoadNpcData.NormalizeTraitsSingle | server/load_npc_data.py:67-68 | a comma-free trait string yields its stripped self, or no trait when blank |
| LoadNpcData.FlatFields | server/load_npc_data.py:62-82 | each field is the record's value when its key is present (null included) and otherwise its default: "Unnamed NPC", "No description available.", "" for the text fields, null for race and class; traits are always a list, split from a string, kept from a list, and empty otherwise |
| LoadNpcData.AppearanceParts | server/load_npc_data.py:94-95 | the truthy race and class, then "Age: <age>"; the join raises exactly when a kept race or class is not a string |
| LoadNpcData.SheetFields | server/load_npc_data.py:85-111 | name, race and class come from `basic_information` over the flat values; the appearance is "<race>, <class>, Age: <age>. Alignment: <alignment>" over the truthy parts; traits are normalised again from `personality_and_backstory` with the flat traits as fallback; story fields come from `personality_and_backstory` and speech fields from `speech_and_mannerisms`; it raises exactly when a block is not a dict or the join meets a non-string |
| LoadNpcData.SheetWithoutBlocks | server/load_npc_data.py:85-111 | a sheet without the three blocks keeps every flat field but the appearance, which becomes "Age: . Alignment: " |
| LoadNpcData.Clean | server/load_npc_data.py:134-136 | exactly the None, empty-string and empty-list values are removed, except for `memories` |
| LoadNpcData.CountOf | server/load_npc_data.py:139-166 | each upsert outcome adds one to exactly one counter: a new document to inserted, a changed one to updated, an identical one to unchanged, and a failed or unmatched write to skipped |
| LoadNpcData.ProcessNpc | server/load_npc_data.py:19-168 | a non-dict is skipped; every successful call counts exactly one record; a written record is counted by its upsert outcome, holds `memories` as `[]`, and has no None, empty-string or other empty-list value |
| LoadNpcData.CleanBuiltDoc | server/load_npc_data.py:114-136 | the built document starts with empty memories; after cleaning it keeps the id and the soul flag, keeps the source file when it is named, and keeps the link only on a soul with a real main id |
| LoadNpcData.WrittenDocShape | server/load_npc_data.py:114-136 | the written document is the cleaned build of the mapped fields, and carries the chosen id, the soul flag, the source file and the soul link as above |
| LoadNpcData.FlatRecordRaisesOnlyOnBadName | server/load_npc_data.py:30-32 | an ordinary record is processed without an escaping exception exactly when its name is absent or a string |
| LoadNpcData.SoulRecordFields | server/load_npc_data.py:229-236 | a soul's name is the stripped text before the first " - "; its appearance is the stripped second piece, or the whole string when there is none; its trait is "Past Life Influence" |
| LoadNpcData.SoulStrings | server/load_npc_data.py:227-228 | every kept soul is a non-blank string of the list, and every non-blank string entry is kept |
| LoadNpcData.SoulStringsSingle | server/load_npc_data.py:228 | one entry is kept exactly when it is a non-blank string |
| LoadNpcData.SoulStringsAppend | server/load_npc_data.py:227-228 | the kept souls of a concatenation are those of each side, in order |
| LoadNpcData.SoulRecords | server/load_npc_data.py:227-237 | one record per kept soul string, at the same position; never more records than entries, and none when no entry is a non-blank string |
| LoadNpcData.SoulRecordsAppend | server/load_npc_data.py:227-237 | the records of a concatenated souls list are those of each side, in order |
| LoadNpcData.SoulRecordsAllKept | server/load_npc_data.py:227-237 | when every entry is a non-blank string, there is one soul record per entry, in order |
| LoadNpcData.MainLink | server/load_npc_data.py:221-222 | the souls' link is "vuthausk_" plus the slug of the sheet's `basic_information.name` ("vuthausk" when absent); a block that is not a dict or a name that is not a string raises |
| LoadNpcData.FileRecords | server/load_npc_data.py:215-249 | Vuthausk's sheet gives itself followed by its souls' records, linked to `vuthausk_<name slug>`; a list gives its items and a dict itself, with no link; anything else skips the file |
| LoadNpcData.PlanCalls | server/load_npc_data.py:252-262 | one call per record, in order; in Vuthausk's file every record after the first is a soul carrying the file's link (`vuthausk_<name slug>` for the sheet, None otherwise), and elsewhere nothing is a soul or linked |
| LoadNpcData.VuthauskStemSlug | server/load_npc_data.py:42 | the file name "vuthausk.json" slugs to the stem "vuthausk" |
| LoadNpcData.SheetLinkIsSheetId | server/load_npc_data.py:35-57 | the souls' link equals the sheet's own id when that id is generated without a collision from a stem that slugs to "vuthausk" |
| LoadNpcData.VuthauskListSoulsUnlinked | server/load_npc_data.py:241-262 | a Vuthausk file holding a list marks every item after the first as a soul, with no link |
| LoadNpcData.RunCalls | server/load_npc_data.py:251-272 | a file's counters add up to the number of its calls |
| LoadNpcData.LoadAll | server/load_npc_data.py:182-278 | the summary counts every processed record exactly once |
| DialogueService.JoinTraits | server/app/services/dialogue_service.py:59 | a list of strings becomes their ", " join; a list holding a non-string raises |
| DialogueService.Snippet | server/app/services/dialogue_service.py:61 | a string backstory gives its prefix of at most 200 characters; slicing anything other than a string or a list raises |
| DialogueService.TraitsText | server/app/services/dialogue_service.py:58-59 | the traits line appears exactly when the traits are truthy, and shows their join |
| DialogueService.BackstoryText | server/app/services/dialogue_service.py:60-61 | the backstory line appears exactly when the backstory is truthy, and shows its snippet |
| DialogueService.ProfileLines | server/app/services/dialogue_service.py:55-65 | the profile has a name line first, then one line per truthy field; rendering succeeds exactly when no field raises |
| DialogueService.BackstorySnippetLine | server/app/services/dialogue_service.py:60-61 | a string backstory appears as its first 200 characters, right after the name, appearance and traits lines |
| DialogueService.TraitsJoinedLine | server/app/services/dialogue_service.py:58-59 | a non-empty list of traits must hold only strings and appears joined with ", " right after the appearance line; an empty list gives no traits line |
| DialogueService.Recent | server/app/services/dialogue_service.py:72 | `[-5:]`: the last min(n, 5) entries, in order |
| DialogueService.HistoryLines | server/app/services/dialogue_service.py:70-73 | empty history adds no line; otherwise a header plus one line per recent entry; it fails exactly when an entry is not a dictionary |
| DialogueService.PromptLines | server/app/services/dialogue_service.py:52-77 | the prompt renders exactly when the profile and the history render and the scene is a string |
| DialogueService.PromptLayout | server/app/services/dialogue_service.py:52-79 | the prompt is the introduction and the profile with the name first, then the scene, then the history block when there is history, then the three task lines |
| DialogueService.PromptHistory | server/app/services/dialogue_service.py:70-73 | the k-th history line of the prompt shows the k-th of the last five entries |
| DialogueService.DropName | server/app/services/dialogue_service.py:110-111 | a case-insensitive "name:" prefix is cut and the rest stripped; any other text is unchanged |
| DialogueService.Unquote | server/app/services/dialogue_service.py:113-114 | one pair of matching outer quotes is removed; any other text is unchanged |
| DialogueService.Cleanup | server/app/services/dialogue_service.py:108-115 | the cleaned answer is always a contiguous piece of the raw answer |
| DialogueService.EchoCut | server/app/services/dialogue_service.py:110-111 | a prefix that matches the name up to case, followed by a colon, counts as an echo and is cut exactly |
| DialogueService.CleanupRoundTrip | server/app/services/dialogue_service.py:108-115 | an answer of the form `Name: "line"` cleans to exactly the line |
| DialogueService.EchoedLine | server/app/services/dialogue_service.py:108-111 | an echoed name is cut and the quoted text survives |
| DialogueService.CleanupPadded | server/app/services/dialogue_service.py:108-115 | a quoted line padded with whitespace cleans to exactly the line |
| DialogueService.CleanupStripsBlanksAndQuotes | server/app/services/dialogue_service.py:108-115 | on a sample, blanks and quotes are removed |
| DialogueService.Outcome | server/app/services/dialogue_service.py:107-130 | a failed call gives None; no parts gives the blocked notice exactly when a block reason is set, else None; with parts, a text exactly when the profile's name is a string, and that text is the parts' concatenation cleaned under that name |
| DialogueService.OutcomeEchoedLine | server/app/services/dialogue_service.py:107-115 | one part of the form `Name: "line"`, in any casing of the name, gives exactly the line |
| DialogueService.Generate | server/app/services/dialogue_service.py:43-130 | without a model or key the result is None with no call; otherwise the outcome of the one call with the rendered prompt |
| DialogueService.GenerateEchoedLine | server/app/services/dialogue_service.py:43-115 | with a ready model and key and a renderable prompt, a model that echoes `Name: "line"` makes the method return just the line |
| Scene.EscapeEach | server/static/js/scene.js:22-34 | the escaped text holds none of the characters `< > " ' \``, and text with nothing to escape is unchanged |
| Scene.ReplacementsAreEscapeEach | server/static/js/scene.js:26-33 | the six global replacements in source order escape each character independently, with `&` first so entities are not escaped twice |
| Scene.EscapeForHtml | server/static/js/scene.js:22-34 | null or undefined gives ""; any other value gives its escaped text, free of the special characters |
| Scene.ToInt32 | server/static/js/scene.js:233-234 | the wrapped value lies in the signed 32-bit range and is congruent to the input modulo 2^32 |
| Scene.HashStepTimes31 | server/static/js/scene.js:233 | one wrapped step `c + ((h << 5) - h)` is congruent to `c + 31*h` |
| Scene.JsHashIsHash | server/static/js/scene.js:232-235 | the wrapped loop hash is congruent to the polynomial hash with base 31 |
| Scene.StringHash | server/static/js/scene.js:230-235 | the loop computes the wrapped hash, whose value modulo 2^32 is the polynomial hash |
| Scene.HexRoundTrip | server/static/js/scene.js:236 | the upper-case hex text reads back as the number |
| Scene.HexLength | server/static/js/scene.js:236-237 | a number below 16^k takes at most k hex digits |
| Scene.PadTo6 | server/static/js/scene.js:237 | left-padding with zeros gives exactly six characters ending in the hex text |
| Scene.LeadingZeros | server/static/js/scene.js:237 | leading zeros do not change the value read |
| Scene.StringToColor | server/static/js/scene.js:229-238 | six upper-case hex digits; "CCCCCC" for a missing or empty string; otherwise they read as the low 24 bits of the polynomial hash |
| Scene.Initials | server/static/js/scene.js:185 | the result is "??" or one or two characters from A-Z and 0-9 |
| Scene.InitialsOfAsciiName | server/static/js/scene.js:185 | for an ASCII name, the initials are the upper-cased first two characters without the non-alphanumerics, or "??" when none is left |
| Scene.QueryGet | server/static/js/scene.js:49-51 | no value exactly when no parameter has the name; otherwise the first match |
| Scene.IdList | server/static/js/scene.js:52-53 | no ids when the parameter is absent; otherwise the non-empty comma pieces of its value, so every id is non-empty and comma-free |
| Scene.IdListAround | server/static/js/scene.js:52-53 | the ids of `a + "," + b` are those of `a` followed by those of `b` |
| Scene.IdListSingle | server/static/js/scene.js:52-53 | a comma-free value is its one id, or no id when empty |
| Scene.Classify | server/static/js/scene.js:85-92 | a character is in the PC list exactly when it is listed in `pc_ids` with type "PC"; it is in the NPC list exactly when it is listed in `npc_ids` and was not taken as a PC |
| Scene.ClassifySingle | server/static/js/scene.js:85-92 | one character goes to the PC list when picked as a PC, else to the NPC list when listed as an NPC, else nowhere |
| Scene.ClassifyAppend | server/static/js/scene.js:85-92 | sorting a concatenation sorts each side, so both lists keep the order the server listed the characters in |
| Scene.ClassifyDisjoint | server/static/js/scene.js:85-92 | no character is in both lists |
| Scene.Exchange | server/static/js/scene.js:268-292 | the exchange submitted to memory has at most two turns, no "GM Action" turns, ends with the last turn, and starts with the second-to-last when it has two turns |
| Scene.RelevantExchange | server/static/js/scene.js:268-292 | the branch structure of the script gives at most two turns, so the final `slice(-2)` never applies |
| Scene.RelevantExchangeIsExchange | server/static/js/scene.js:268-292 | for an NPC not named "GM Action", the script's branches compute the reference exchange |
| Scene.GmActionNamedNpc | server/static/js/scene.js:273-278 | when the history ends with a GM action after some other turn, an NPC named "GM Action" gets both turns as its exchange, while the reference exchange is empty |
| Scene.MemoryPayload | server/static/js/scene.js:268-298 | nothing is submitted exactly when the exchange is empty, which for an NPC not named "GM Action" means the history is empty or ends with a GM action; otherwise the exchange's turns are joined as "speaker: text" lines |
| Scene.MemoryPayloadLines | server/static/js/scene.js:293-296 | when no speaker or text holds a newline, splitting the submitted text on newlines gives back the exchange's lines |
| Scene.SentHistory | server/static/js/scene.js:307 | `slice(-10)`: the last min(n, 10) turns of the NPC's history, or none without a history |
| Scene.Log | server/static/js/scene.js:436-440 | an entry that passes the rule is appended to its NPC's history only; any other entry changes nothing |
| Scene.GmActionNotRecorded | server/static/js/scene.js:265 | the log of a GM action never enters an NPC's history |
| NpcSelector.DataType | server/static/js/npc-selector.js:36 | the checkbox's data-type is "PC" exactly for a PC |
| NpcSelector.RenderLists | server/static/js/npc-selector.js:33-47 | the two lists together have one checkbox per character; the PC list holds the PCs in order and the NPC list the rest |
| NpcSelector.EmptyNotices | server/static/js/npc-selector.js:52-57 | "No PCs" shows exactly when there is no PC, and "No NPCs" exactly when every character is a PC |
| NpcSelector.SplitSelection | server/static/js/npc-selector.js:65-71 | the checked boxes split into PC and NPC ids by their data-type, with every box in one list |
| NpcSelector.SplitSelectionKeepsOrder | server/static/js/npc-selector.js:65-71 | each list keeps the document order of its boxes |
| NpcSelector.StartScene | server/static/js/npc-selector.js:73-78 | no navigation exactly when nothing is checked; otherwise the scene page with both id lists |
| NpcSelector.IdListOfJoin | server/static/js/scene.js:52-53 | the scene page reads back a comma-joined list of clean ids |
| NpcSelector.SearchRoundTrip | server/static/js/npc-selector.js:78 | the scene page parses the selector's query back into the same PC and NPC id lists |
| NpcSelector.StartSceneRoundTrip | server/static/js/npc-selector.js:65-78 | the scene page receives exactly the checked PC and NPC ids, in document order |
| Dashboard.OwnershipOf | server/static/js/dashboard.js:138-145 | "mine" exactly when the uploader is truthy and equals the current user; "default" exactly when there is no uploader, with the type or "Character" |
| Dashboard.OwnerTagIdentifies | server/static/js/dashboard.js:140-145 | different ownerships give different tags |
| Dashboard.ItemOf | server/static/js/dashboard.js:138-155 | edit and delete buttons appear exactly for one's own uploads, which are exactly the items tagged "(Uploaded by you)" |
| Dashboard.CharacterLists | server/static/js/dashboard.js:137-163 | the PC and NPC lists hold one item per character, in order, by type |
| Dashboard.UpdatePayload | server/static/js/dashboard.js:250-262 | the update holds exactly the editable fields present in the form |
| Dashboard.UpdatePayloadIsFromEntries | server/static/js/dashboard.js:258-262 | the update equals `Object.fromEntries` of the allowed entries, so the last entry wins |
| Dashboard.Convert | server/static/js/dashboard.js:541-545 | `key_features` of a location and `domains` of a religion become the trimmed, non-empty comma pieces of the value as a list; every other field stays text |
| Dashboard.WorldItemPayload | server/static/js/dashboard.js:539-546 | every submitted field except `_id` and `item_type_hidden` appears, converted by its kind |
| Dashboard.WorldItemPayloadIsFromEntries | server/static/js/dashboard.js:539-546 | the payload equals `Object.fromEntries` of the converted non-skipped entries |
| Dashboard.Route | server/static/js/dashboard.js:548-549 | PUT to the collection of the item type followed by "/" and the id when there is an item id; otherwise POST to the collection itself |
| Dashboard.RouteSeparatesItems | server/static/js/dashboard.js:548-549 | different non-empty ids of the same type get different URLs |
| Dashboard.CapitalizeFirstLetter | server/static/js/dashboard.js:588-591 | same length, first character upper-cased, the rest unchanged; empty gives empty |
| Dashboard.CapitalizeIdempotent | server/static/js/dashboard.js:588-591 | capitalising twice is capitalising once |
| Auth.Register | server/static/js/auth.js:64-80 | a mismatch is reported first, then a password under 8 UTF-16 units; it succeeds exactly otherwise, and the payload is the form's last-entry-wins map without `confirm_password` |
| Auth.Utf16LengthInBmp | server/static/js/auth.js:72 | for text in the Basic Multilingual Plane, the JavaScript length is the character count |
| Auth.ShortestAccepted | server/static/js/auth.js:72-76 | seven characters are refused and eight are accepted |

## Left out

- LoadNpcData.FileRecords: the souls' link is `vuthausk_<name slug>` whatever id the sheet itself gets. It differs from that id when the sheet has a truthy `_id` or `id` or its generated id collides (LoadNpcData.SheetLinkIsSheetId covers the remaining case). A Vuthausk file holding a list marks its later items as souls with no link. The model keeps both behaviours as written.

- Database, file system, `glob`, `uuid4`, `print` and MongoDB's upsert are parameters or left out. `findOne`, the upsert outcome and the uuid enter through an environment value. A file that cannot be read or parsed is an absent content. Printed messages are not modelled.
- The language model and its configuration are left out. The Gemini client, safety settings and API configuration are outside the model, and the model's answer (parts, blocked reason, or exception) is a parameter.
- `server/app/services/dialogue_services.py` is left out. It is an unused duplicate of the dialogue service.
- Routes, configuration, models and `auth_service.py` are left out, and so is the Flask application. They are request plumbing around the core.
- Python's `repr` of lists and dictionaries, and dictionary key order, enter as a parameter (`Host`).
- Floating-point JSON numbers are not modelled. Only integers appear in the sheets.
- The DOM, `fetch`, `alert`, `setTimeout` and styling are left out. Each script's computation is modelled on its inputs: fetched characters, form entries, checked boxes in document order.
- `URLSearchParams` is modelled only for the characters an id can hold. Only `+` is decoded (to a space), and percent-escapes are not decoded.
- NpcSelector.SearchRoundTrip: holds only for clean ids, meaning non-empty and free of `, & + # %`, spaces and control characters. Other ids are altered by the browser's URL encoding and parsing (which deletes tabs and line breaks and trims trailing spaces and control characters), and that is not modelled.
- Case mapping (`lower()`, `toUpperCase()`) is ASCII-only. Other characters are left unchanged.
- Scene.Initials: `String(npc.name)` of a missing name would be "undefined" or "null". The model takes the name as given text.
- Scene.StringToColor: the call site passes `npc.name || 'default'`. The fallback name is the caller's, and the function is modelled on the string it receives.
- JavaScript `toString()` of non-string field values is left out. Character fields are optional strings.
- HTML attributes in the rendered lists are not escaped by the scripts, and the model renders them as written without claiming safety.
- Scene.RelevantExchangeIsExchange: requires that the NPC is not named "GM Action". Scene.GmActionNamedNpc shows how the script differs in that case.
- Dashboard.CapitalizeFirstLetter: works on characters, not UTF-16 code units. For a first character outside the Basic Multilingual Plane, `charAt(0)` would take half a surrogate pair; that case is not modelled.
- LoadNpcData.LoadAll: the `if __name__` entry point, the `MONGO_URI` parsing and the printed report are left out. The totals it reports are modelled.
