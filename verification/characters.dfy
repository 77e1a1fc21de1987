/**
 * Characters as the browser scripts receive them from `/api/npcs`, and the
 * PC/NPC split that the dashboard, the scene selector and the scene page share.
 */
module Characters {
  import opened Wrappers

  /**
   * The fields the scripts read. A missing or `null` field is `None`; the
   * scripts only compare and print these, so their other JSON types are not
   * distinguished.
   */
  datatype Character = Character(
    id: Option<string>,
    name: Option<string>,
    characterType: Option<string>,
    userId: Option<string>)

  /** JavaScript truthiness of an optional string: present and non-empty. */
  predicate Truthy(v: Option<string>) {
    v.Some? && v.value != ""
  }

  /** `v || fallback` on an optional string. */
  function Or(v: Option<string>, fallback: string): (r: string)
    ensures Truthy(v) ==> r == v.value
    ensures !Truthy(v) ==> r == fallback
  {
    if Truthy(v) then v.value else fallback
  }

  /** A field interpolated into a template literal: a missing one prints as `undefined`. */
  function TemplateText(v: Option<string>): (r: string)
    ensures v.Some? ==> r == v.value
  {
    if v.None? then "undefined" else v.value
  }

  /** `char.character_type === "PC"`. */
  predicate IsPc(c: Character) {
    c.characterType == Some("PC")
  }

  /** The characters of `cs` with the given PC-ness, in order: the reference for the partition. */
  function Keep(cs: seq<Character>, pc: bool): (r: seq<Character>)
    ensures |r| <= |cs|
    ensures forall c :: c in r ==> c in cs && IsPc(c) == pc
  {
    if cs == [] then []
    else if IsPc(cs[0]) == pc then [cs[0]] + Keep(cs[1..], pc)
    else Keep(cs[1..], pc)
  }

  /**
   * One pass over the characters, appending each to the PC list when its type
   * is `"PC"` and to the NPC list otherwise (a missing or other type included).
   */
  function Partition(cs: seq<Character>): (r: (seq<Character>, seq<Character>))
    ensures |r.0| + |r.1| == |cs|
    ensures multiset(r.0) + multiset(r.1) == multiset(cs)
    ensures forall c :: c in r.0 ==> IsPc(c)
    ensures forall c :: c in r.1 ==> !IsPc(c)
  {
    if cs == [] then ([], [])
    else
      var last := cs[|cs| - 1];
      var (pcs, npcs) := Partition(cs[..|cs| - 1]);
      assert cs == cs[..|cs| - 1] + [last];
      if IsPc(last) then (pcs + [last], npcs) else (pcs, npcs + [last])
  }

  /** The partition keeps the original order within each list. */
  lemma {:induction false} PartitionKeepsOrder(cs: seq<Character>)
    ensures Partition(cs).0 == Keep(cs, true)
    ensures Partition(cs).1 == Keep(cs, false)
  {
    if cs != [] {
      var init := cs[..|cs| - 1];
      var last := cs[|cs| - 1];
      assert cs == init + [last];
      PartitionKeepsOrder(init);
      KeepAppend(init, last, true);
      KeepAppend(init, last, false);
      var p := Partition(init);
      if IsPc(last) {
        assert Partition(cs) == (p.0 + [last], p.1);
      } else {
        assert Partition(cs) == (p.0, p.1 + [last]);
      }
    }
  }

  /** Nothing is kept exactly when no character has the requested PC-ness. */
  lemma {:induction false} KeepEmpty(cs: seq<Character>, pc: bool)
    ensures Keep(cs, pc) == [] <==> forall c :: c in cs ==> IsPc(c) != pc
  {
    if cs != [] {
      KeepEmpty(cs[1..], pc);
      assert forall c :: c in cs <==> c == cs[0] || c in cs[1..];
    }
  }

  lemma {:induction false} KeepAppend(cs: seq<Character>, c: Character, pc: bool)
    ensures Keep(cs + [c], pc) == Keep(cs, pc) + (if IsPc(c) == pc then [c] else [])
  {
    if cs == [] {
      assert [] + [c] == [c];
    } else {
      assert (cs + [c])[0] == cs[0];
      assert (cs + [c])[1..] == cs[1..] + [c];
      KeepAppend(cs[1..], c, pc);
    }
  }
}
