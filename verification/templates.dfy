/**
 * `_load_templates`, which the three generators share: each named template is read in
 * order, and the first one that reads back empty (or cannot be read) stops the load with
 * a `ValueError` naming it.
 */
module Templates {
  import opened Wrappers
  import opened AgentText

  /** The templates after reading `entries` (name and path) in order. */
  function LoadSpec(s: Services, entries: seq<(string, string)>): Result<map<string, string>, string>
    decreases |entries|
  {
    if |entries| == 0 then Ok(map[])
    else
      var prev := LoadSpec(s, entries[..|entries| - 1]);
      var last := entries[|entries| - 1];
      if prev.Err? then prev
      else if !Truthy(ReadFile(s, last.1)) then Err("Failed to load template: " + last.0)
      else Ok(prev.value[last.0 := ReadFile(s, last.1).value])
  }

  /** The load succeeds exactly when every template reads back non-empty. */
  lemma {:induction false} LoadOkIff(s: Services, entries: seq<(string, string)>)
    ensures LoadSpec(s, entries).Ok? <==> forall i :: 0 <= i < |entries| ==> Truthy(ReadFile(s, entries[i].1))
    decreases |entries|
  {
    if |entries| > 0 {
      var init := entries[..|entries| - 1];
      LoadOkIff(s, init);
      assert forall i :: 0 <= i < |init| ==> init[i] == entries[i];
    }
  }

  /** A successful load maps each template's name to its contents. */
  lemma {:induction false} LoadContents(s: Services, entries: seq<(string, string)>)
    requires forall i, j :: 0 <= i < j < |entries| ==> entries[i].0 != entries[j].0
    requires LoadSpec(s, entries).Ok?
    ensures var m := LoadSpec(s, entries).value;
      m.Keys == (set i | 0 <= i < |entries| :: entries[i].0)
      && forall i :: 0 <= i < |entries| ==> Some(m[entries[i].0]) == ReadFile(s, entries[i].1)
    decreases |entries|
  {
    if |entries| > 0 {
      var init, last := entries[..|entries| - 1], entries[|entries| - 1];
      assert forall i :: 0 <= i < |init| ==> init[i] == entries[i];
      LoadContents(s, init);
      var m0 := LoadSpec(s, init).value;
      var m := LoadSpec(s, entries).value;
      assert m == m0[last.0 := ReadFile(s, last.1).value];
      NamesAppend(entries);
      forall i | 0 <= i < |entries| ensures Some(m[entries[i].0]) == ReadFile(s, entries[i].1) {
        if i < |init| {
          assert entries[i].0 != last.0 && entries[i].0 in m0;
        }
      }
    }
  }

  /** The names of a list of entries are those of all but the last, and the last one's. */
  lemma NamesAppend(entries: seq<(string, string)>)
    requires |entries| > 0
    ensures var init := entries[..|entries| - 1];
      (set i | 0 <= i < |entries| :: entries[i].0) == (set i | 0 <= i < |init| :: init[i].0) + {entries[|entries| - 1].0}
  {
    var init := entries[..|entries| - 1];
    assert forall i :: 0 <= i < |init| ==> init[i] == entries[i];
  }

  /** A failed load names the first template that reads back empty or not at all. */
  lemma {:induction false} LoadErrorNamesFirst(s: Services, entries: seq<(string, string)>)
    requires LoadSpec(s, entries).Err?
    ensures exists i :: (0 <= i < |entries| && FirstUnreadable(s, entries, i)
      && LoadSpec(s, entries).error == "Failed to load template: " + entries[i].0)
    decreases |entries|
  {
    var init := entries[..|entries| - 1];
    var prev := LoadSpec(s, init);
    if prev.Err? {
      LoadErrorNamesFirst(s, init);
      var i :| 0 <= i < |init| && FirstUnreadable(s, init, i) && prev.error == "Failed to load template: " + init[i].0;
      assert FirstUnreadable(s, entries, i);
    } else {
      LoadOkIff(s, init);
      assert FirstUnreadable(s, entries, |entries| - 1);
    }
  }

  /** Entry `i` is the first whose template reads back empty or not at all. */
  predicate FirstUnreadable(s: Services, entries: seq<(string, string)>, i: int)
    requires 0 <= i < |entries|
  {
    !Truthy(ReadFile(s, entries[i].1)) && forall j :: 0 <= j < i ==> Truthy(ReadFile(s, entries[j].1))
  }

  /** `_load_templates`: reads the templates in order, stopping at the first empty one. */
  method LoadTemplates(s: Services, entries: seq<(string, string)>) returns (r: Result<map<string, string>, string>)
    ensures r == LoadSpec(s, entries)
  {
    var templates := map[];
    for i := 0 to |entries|
      invariant LoadSpec(s, entries[..i]) == Ok(templates)
    {
      assert entries[..i + 1][..i] == entries[..i];
      var content := ReadFile(s, entries[i].1);
      if !Truthy(content) {
        assert LoadSpec(s, entries[..i + 1]) == Err("Failed to load template: " + entries[i].0);
        LoadStopsAtError(s, entries, i + 1);
        return Err("Failed to load template: " + entries[i].0);
      }
      templates := templates[entries[i].0 := content.value];
    }
    assert entries[..|entries|] == entries;
    return Ok(templates);
  }

  /** Once a prefix fails to load, the whole load fails with the same error. */
  lemma {:induction false} LoadStopsAtError(s: Services, entries: seq<(string, string)>, n: nat)
    requires n <= |entries| && LoadSpec(s, entries[..n]).Err?
    ensures LoadSpec(s, entries) == LoadSpec(s, entries[..n])
    decreases |entries| - n
  {
    if n < |entries| {
      assert entries[..n + 1][..n] == entries[..n];
      LoadStopsAtError(s, entries, n + 1);
    } else {
      assert entries[..n] == entries;
    }
  }
}
