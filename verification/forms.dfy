/**
 * Form submissions as the browser scripts read them: `FormData` entries in
 * document order, and the object built by assigning each entry in turn, so
 * that a repeated name keeps its last value.
 */
module Forms {
  /** One `FormData` entry: a field name and its string value. */
  type Entry = (string, string)

  /** The names the entries carry. */
  function Names(entries: seq<Entry>): set<string> {
    set i | 0 <= i < |entries| :: entries[i].0
  }

  /** Entry `i` is the last one named `k`. */
  predicate LastFor(entries: seq<Entry>, k: string, i: int) {
    0 <= i < |entries| && entries[i].0 == k && forall j :: i < j < |entries| ==> entries[j].0 != k
  }

  lemma NamesAppend(entries: seq<Entry>, e: Entry)
    ensures Names(entries + [e]) == Names(entries) + {e.0}
  {
    var all := entries + [e];
    assert all[|entries|].0 == e.0;
    forall k | k in Names(entries)
      ensures k in Names(all)
    {
      var i :| 0 <= i < |entries| && entries[i].0 == k;
      assert all[i].0 == k;
    }
  }

  /**
   * `Object.fromEntries(formData.entries())`, equally a loop assigning
   * `obj[key] = value`: one key per name, holding the value of the last
   * entry with that name.
   */
  function FromEntries(entries: seq<Entry>): (r: map<string, string>)
    ensures r.Keys == Names(entries)
    ensures forall k :: k in r ==> exists i :: LastFor(entries, k, i) && entries[i].1 == r[k]
  {
    if entries == [] then map[]
    else
      var init := entries[..|entries| - 1];
      var e := entries[|entries| - 1];
      var m := FromEntries(init);
      assert entries == init + [e];
      NamesAppend(init, e);
      var r := m[e.0 := e.1];
      forall k | k in r
        ensures exists i :: LastFor(entries, k, i) && entries[i].1 == r[k]
      {
        if k == e.0 {
          assert LastFor(entries, k, |entries| - 1);
        } else {
          var i :| LastFor(init, k, i) && init[i].1 == m[k];
          assert LastFor(entries, k, i);
        }
      }
      r
  }

  /** Appending an entry sets its name to its value. */
  lemma FromEntriesSnoc(entries: seq<Entry>, e: Entry)
    ensures FromEntries(entries + [e]) == FromEntries(entries)[e.0 := e.1]
  {
    var all := entries + [e];
    assert all[..|all| - 1] == entries;
  }
}
