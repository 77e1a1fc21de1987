/**
 * The scene selector page: the PC and NPC checkbox lists it renders, the
 * split of the checked boxes into PC ids and NPC ids, and the scene URL it
 * navigates to, which the scene page parses back into the same two lists.
 */
module NpcSelector {
  import opened Wrappers
  import opened Text
  import opened Characters
  import Scene

  // ---------------------------------------------------------------------------
  // The rendered lists (lines 27-58)
  // ---------------------------------------------------------------------------

  /** A rendered checkbox: its `value` and its `data-type`. */
  datatype Checkbox = Checkbox(value: string, dataType: string)

  /** `${char.character_type || 'NPC'}`: a missing or empty type reads as an NPC. */
  function DataType(c: Character): (r: string)
    ensures r == "PC" <==> IsPc(c)
    ensures !Truthy(c.characterType) ==> r == "NPC"
  {
    Or(c.characterType, "NPC")
  }

  function CheckboxOf(c: Character): Checkbox {
    Checkbox(TemplateText(c.id), DataType(c))
  }

  function Boxes(cs: seq<Character>): (r: seq<Checkbox>)
    ensures |r| == |cs| && forall k :: 0 <= k < |cs| ==> r[k] == CheckboxOf(cs[k])
  {
    seq(|cs|, k requires 0 <= k < |cs| => CheckboxOf(cs[k]))
  }

  /**
   * `renderCharacterLists`: one pass putting each character's checkbox in the
   * PC list when its type is `'PC'` and in the NPC list otherwise.
   */
  function RenderLists(cs: seq<Character>): (r: (seq<Checkbox>, seq<Checkbox>))
    ensures |r.0| + |r.1| == |cs|
    ensures forall k :: 0 <= k < |r.0| ==> r.0[k].dataType == "PC"
    ensures forall k :: 0 <= k < |r.1| ==> r.1[k].dataType != "PC"
    ensures r.0 == Boxes(Keep(cs, true)) && r.1 == Boxes(Keep(cs, false))
  {
    var (pcs, npcs) := Partition(cs);
    PartitionKeepsOrder(cs);
    (Boxes(pcs), Boxes(npcs))
  }

  /** Which list shows its "none available" notice instead of a list. */
  function EmptyNotices(cs: seq<Character>): (r: (bool, bool))
    ensures r.0 <==> forall c :: c in cs ==> !IsPc(c)
    ensures r.1 <==> forall c :: c in cs ==> IsPc(c)
  {
    var (pcs, npcs) := RenderLists(cs);
    KeepEmpty(cs, true);
    KeepEmpty(cs, false);
    (|pcs| == 0, |npcs| == 0)
  }

  // ---------------------------------------------------------------------------
  // Starting the scene (lines 60-79)
  // ---------------------------------------------------------------------------

  /** The values of the boxes whose data-type is (or is not) `'PC'`, in order. */
  function IdsOf(boxes: seq<Checkbox>, pc: bool): (r: seq<string>)
    ensures |r| <= |boxes|
  {
    if boxes == [] then []
    else (if (boxes[0].dataType == "PC") == pc then [boxes[0].value] else []) + IdsOf(boxes[1..], pc)
  }

  /** The click handler's pass over the checked boxes, pushing each value onto one of two lists. */
  function SplitSelection(checked: seq<Checkbox>): (r: (seq<string>, seq<string>))
    ensures |r.0| + |r.1| == |checked|
  {
    if checked == [] then ([], [])
    else
      var box := checked[|checked| - 1];
      var (pcs, npcs) := SplitSelection(checked[..|checked| - 1]);
      if box.dataType == "PC" then (pcs + [box.value], npcs) else (pcs, npcs + [box.value])
  }

  lemma {:induction false} IdsOfAppend(boxes: seq<Checkbox>, box: Checkbox, pc: bool)
    ensures IdsOf(boxes + [box], pc) == IdsOf(boxes, pc) + (if (box.dataType == "PC") == pc then [box.value] else [])
  {
    if boxes == [] {
      assert [] + [box] == [box];
    } else {
      assert (boxes + [box])[0] == boxes[0];
      assert (boxes + [box])[1..] == boxes[1..] + [box];
      IdsOfAppend(boxes[1..], box, pc);
    }
  }

  /** The split keeps document order: PC ids are the PC boxes' values, NPC ids the others'. */
  lemma {:induction false} SplitSelectionKeepsOrder(checked: seq<Checkbox>)
    ensures SplitSelection(checked).0 == IdsOf(checked, true)
    ensures SplitSelection(checked).1 == IdsOf(checked, false)
  {
    if checked != [] {
      var init := checked[..|checked| - 1];
      var box := checked[|checked| - 1];
      assert checked == init + [box];
      SplitSelectionKeepsOrder(init);
      IdsOfAppend(init, box, true);
      IdsOfAppend(init, box, false);
      var p := SplitSelection(init);
      if box.dataType == "PC" {
        assert SplitSelection(checked) == (p.0 + [box.value], p.1);
      } else {
        assert SplitSelection(checked) == (p.0, p.1 + [box.value]);
      }
    }
  }

  /** The query string the handler navigates with. */
  function Search(pcs: seq<string>, npcs: seq<string>): string {
    "?" + Scene.PcIdsParam + "=" + Join(pcs, ",") + "&" + Scene.NpcIdsParam + "=" + Join(npcs, ",")
  }

  /**
   * The start-scene click: no navigation when nothing is checked; otherwise
   * `/scene.html` with the PC ids and the NPC ids as comma lists.
   */
  function StartScene(checked: seq<Checkbox>): (r: Option<string>)
    ensures r.None? <==> checked == []
    ensures r.Some? ==> r.value == "/scene.html" + Search(IdsOf(checked, true), IdsOf(checked, false))
  {
    var (pcs, npcs) := SplitSelection(checked);
    SplitSelectionKeepsOrder(checked);
    if pcs == [] && npcs == [] then None
    else Some("/scene.html" + Search(pcs, npcs))
  }

  // ---------------------------------------------------------------------------
  // The round trip with the scene page's parsing
  // ---------------------------------------------------------------------------

  /**
   * An id that survives the trip: non-empty, and free of the separators the
   * query and the list use, of `+` (read back as a space), of `#` and `%`
   * (a fragment start and a percent escape in a real URL), and of spaces and
   * control characters (the URL parser deletes tabs and line breaks and trims
   * a trailing space or control character).
   */
  predicate CleanId(id: string) {
    && id != [] && ',' !in id && '&' !in id && '+' !in id && '#' !in id && '%' !in id
    && forall k :: 0 <= k < |id| ==> id[k] > ' '
  }

  predicate CleanIds(ids: seq<string>) {
    forall k :: 0 <= k < |ids| ==> CleanId(ids[k])
  }

  lemma {:induction false} JoinAvoids(xs: seq<string>, sep: string, c: char)
    requires c !in sep
    requires forall k :: 0 <= k < |xs| ==> c !in xs[k]
    ensures c !in Join(xs, sep)
  {
    if |xs| > 1 {
      JoinAvoids(xs[1..], sep, c);
    }
  }

  lemma JoinNonEmpty(xs: seq<string>, sep: string)
    requires forall k :: 0 <= k < |xs| ==> xs[k] != []
    ensures Join(xs, sep) == [] <==> xs == []
  {
    if |xs| > 1 {
      assert |Join(xs, sep)| >= |xs[0]|;
    }
  }

  lemma ReplaceCharAbsent(s: string, a: char, b: char)
    requires a !in s
    ensures ReplaceChar(s, a, b) == s
  {
  }

  /** A clean comma list reads back as the ids it joins. */
  lemma IdListOfJoin(ids: seq<string>)
    requires CleanIds(ids)
    ensures Scene.IdList(Some(Join(ids, ","))) == ids
  {
    JoinNonEmpty(ids, ",");
    if ids != [] {
      SplitJoin(ids, ',');
    }
  }

  /** `name=value` with no `=` in the name and no `+` anywhere parses to that pair. */
  lemma PairOf(name: string, value: string)
    requires '=' !in name && '+' !in name && '+' !in value
    ensures Scene.Pair(name + "=" + value) == (name, value)
  {
    var piece := name + "=" + value;
    assert piece == name + ['='] + value;
    FindAfterFreePrefix(name, '=', value);
    assert piece[..|name|] == name;
    assert piece[|name| + 1..] == value;
    ReplaceCharAbsent(name, '+', ' ');
    ReplaceCharAbsent(value, '+', ' ');
  }

  /** A query of two clean pairs parses to those two pairs. */
  lemma QueryOfTwo(n1: string, v1: string, n2: string, v2: string)
    requires n1 != [] && n2 != []
    requires '&' !in n1 && '&' !in v1 && '&' !in n2 && '&' !in v2
    requires '=' !in n1 && '=' !in n2
    requires '+' !in n1 && '+' !in v1 && '+' !in n2 && '+' !in v2
    ensures Scene.QueryPairs("?" + n1 + "=" + v1 + "&" + n2 + "=" + v2) == [(n1, v1), (n2, v2)]
  {
    var x, y := n1 + "=" + v1, n2 + "=" + v2;
    var q := "?" + n1 + "=" + v1 + "&" + n2 + "=" + v2;
    PiecesOfTwo(n1, v1, n2, v2);
    PairsOfPieces(q, x, y);
    assert Scene.Pair(x) == (n1, v1) by {
      PairOf(n1, v1);
    }
    assert Scene.Pair(y) == (n2, v2) by {
      PairOf(n2, v2);
    }
  }

  lemma PiecesOfTwo(n1: string, v1: string, n2: string, v2: string)
    requires n1 != [] && n2 != []
    requires '&' !in n1 && '&' !in v1 && '&' !in n2 && '&' !in v2
    ensures var q := "?" + n1 + "=" + v1 + "&" + n2 + "=" + v2;
      NonEmpty(Split(Scene.DropQuestionMark(q), "&")) == [n1 + "=" + v1, n2 + "=" + v2]
  {
    var x, y := n1 + "=" + v1, n2 + "=" + v2;
    var q := "?" + n1 + "=" + v1 + "&" + n2 + "=" + v2;
    assert Scene.DropQuestionMark(q) == x + "&" + y by {
      assert q == "?" + (x + "&" + y);
    }
    SplitTwo(x, y);
    assert x[|n1|] == '=' && y[|n2|] == '=';
    assert NonEmpty([x, y]) == [x, y];
  }

  lemma PairsOfPieces(q: string, x: string, y: string)
    requires NonEmpty(Split(Scene.DropQuestionMark(q), "&")) == [x, y]
    ensures Scene.QueryPairs(q) == [Scene.Pair(x), Scene.Pair(y)]
  {
  }

  lemma SplitTwo(x: string, y: string)
    requires '&' !in x && '&' !in y
    ensures Split(x + "&" + y, "&") == [x, y]
  {
    assert Join([x, y], "&") == x + "&" + y;
    SplitJoin([x, y], '&');
  }

  /**
   * The URL the selector builds parses back, on the scene page, to the same
   * PC ids and NPC ids in the same order, when every id is clean.
   */
  lemma SearchRoundTrip(pcs: seq<string>, npcs: seq<string>)
    requires CleanIds(pcs) && CleanIds(npcs)
    ensures Scene.SelectedIds(Search(pcs, npcs)) == (pcs, npcs)
  {
    var a, b := Join(pcs, ","), Join(npcs, ",");
    JoinAvoids(pcs, ",", '&');
    JoinAvoids(npcs, ",", '&');
    JoinAvoids(pcs, ",", '+');
    JoinAvoids(npcs, ",", '+');
    var pairs := [(Scene.PcIdsParam, a), (Scene.NpcIdsParam, b)];
    assert Scene.QueryPairs(Search(pcs, npcs)) == pairs by {
      QueryOfTwo(Scene.PcIdsParam, a, Scene.NpcIdsParam, b);
    }
    assert Scene.QueryGet(pairs, Scene.PcIdsParam) == Some(a);
    assert Scene.QueryGet(pairs, Scene.NpcIdsParam) == Some(b) by {
      assert |Scene.PcIdsParam| != |Scene.NpcIdsParam|;
      assert pairs[1..] == [(Scene.NpcIdsParam, b)];
    }
    IdListOfJoin(pcs);
    IdListOfJoin(npcs);
  }

  /** The checked boxes' ids reach the scene page intact and in order. */
  lemma StartSceneRoundTrip(checked: seq<Checkbox>)
    requires checked != []
    requires forall k :: 0 <= k < |checked| ==> CleanId(checked[k].value)
    ensures StartScene(checked).Some?
    ensures StartScene(checked).value == "/scene.html" + Search(IdsOf(checked, true), IdsOf(checked, false))
    ensures Scene.SelectedIds(Search(IdsOf(checked, true), IdsOf(checked, false)))
         == (IdsOf(checked, true), IdsOf(checked, false))
  {
    IdsOfClean(checked, true);
    IdsOfClean(checked, false);
    SearchRoundTrip(IdsOf(checked, true), IdsOf(checked, false));
  }

  lemma {:induction false} IdsOfClean(boxes: seq<Checkbox>, pc: bool)
    requires forall k :: 0 <= k < |boxes| ==> CleanId(boxes[k].value)
    ensures CleanIds(IdsOf(boxes, pc))
  {
    if boxes != [] {
      IdsOfClean(boxes[1..], pc);
      var head := if (boxes[0].dataType == "PC") == pc then [boxes[0].value] else [];
      var rest := IdsOf(boxes[1..], pc);
      assert IdsOf(boxes, pc) == head + rest;
      assert forall k :: 0 <= k < |head + rest| ==> (head + rest)[k] == if k < |head| then head[k] else rest[k - |head|];
    }
  }
}
