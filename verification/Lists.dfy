/** Comma-separated form lists and their differences, internal/web/ddl.go. */
module Lists {
  import opened GoStrings

  /** strings.Split(s, ",") */
  function SplitComma(s: string): (parts: seq<string>)
    ensures |parts| > 0
  {
    if s == "" then [""]
    else
      var rest := SplitComma(s[1..]);
      if s[0] == ',' then [""] + rest else [[s[0]] + rest[0]] + rest[1..]
  }

  function TrimmedEntries(parts: seq<string>): seq<string> {
    if |parts| == 0 then []
    else
      var p := Trim(parts[|parts| - 1]);
      TrimmedEntries(parts[..|parts| - 1]) + if p == "" then [] else [p]
  }

  function SplitList(s: string): seq<string> {
    TrimmedEntries(SplitComma(s))
  }

  /** splitList: one pass over the parts. */
  method ParseList(s: string) returns (out: seq<string>)
    ensures out == SplitList(s)
  {
    var parts := SplitComma(s);
    out := [];
    for i := 0 to |parts|
      invariant out == TrimmedEntries(parts[..i])
    {
      var p := Trim(parts[i]);
      assert parts[..i + 1][..i] == parts[..i];
      if p != "" {
        out := out + [p];
      }
    }
    assert parts[..|parts|] == parts;
  }

  /** An entry that survives the round trip through a list. */
  predicate IsEntry(p: string) {
    IsTrimmed(p) && ',' !in p
  }

  lemma {:induction false} SplitCommaOfEntry(p: string)
    requires ',' !in p
    ensures SplitComma(p) == [p]
  {
    if p != "" {
      SplitCommaOfEntry(p[1..]);
      assert [p[0]] + p[1..] == p;
    }
  }

  lemma {:induction false} SplitCommaAtComma(p: string, rest: string)
    requires ',' !in p
    ensures SplitComma(p + "," + rest) == [p] + SplitComma(rest)
  {
    var s := p + "," + rest;
    if p == "" {
      assert s[1..] == rest;
    } else {
      assert s[1..] == p[1..] + "," + rest;
      SplitCommaAtComma(p[1..], rest);
      assert [p[0]] + p[1..] == p;
    }
  }

  lemma {:induction false} SplitCommaOfJoin(entries: seq<string>)
    requires |entries| > 0 && forall i :: 0 <= i < |entries| ==> IsEntry(entries[i])
    ensures SplitComma(Join(entries, ",")) == entries
  {
    if |entries| == 1 {
      SplitCommaOfEntry(entries[0]);
    } else {
      SplitCommaOfJoin(entries[1..]);
      SplitCommaAtComma(entries[0], Join(entries[1..], ","));
    }
  }

  lemma {:induction false} TrimmedEntriesOfEntries(entries: seq<string>)
    requires forall i :: 0 <= i < |entries| ==> IsEntry(entries[i])
    ensures TrimmedEntries(entries) == entries
  {
    if |entries| > 0 {
      TrimOfTrimmed(entries[|entries| - 1]);
      TrimmedEntriesOfEntries(entries[..|entries| - 1]);
    }
  }

  /** Joining entries with commas and splitting the list again gives them back. */
  lemma SplitListOfJoin(entries: seq<string>)
    requires forall i :: 0 <= i < |entries| ==> IsEntry(entries[i])
    ensures SplitList(Join(entries, ",")) == entries
  {
    if |entries| == 0 {
      assert TrimmedEntries([""]) == [] by { assert [""][..0] == []; }
    } else {
      SplitCommaOfJoin(entries);
      TrimmedEntriesOfEntries(entries);
    }
  }

  lemma {:induction false} SplitCommaHasNoComma(s: string)
    ensures forall i | 0 <= i < |SplitComma(s)| :: ',' !in SplitComma(s)[i]
  {
    if s != "" {
      SplitCommaHasNoComma(s[1..]);
    }
  }

  lemma {:induction false} TrimmedEntriesAreEntries(parts: seq<string>)
    requires forall i | 0 <= i < |parts| :: ',' !in parts[i]
    ensures forall p | p in TrimmedEntries(parts) :: IsEntry(p)
  {
    if |parts| > 0 {
      var last := parts[|parts| - 1];
      TrimmedEntriesAreEntries(parts[..|parts| - 1]);
      TrimParts(last);
      assert ',' !in Trim(last) by {
        assert last == Leading(last) + Trim(last) + Trailing(TrimLeft(last));
      }
    }
  }

  /** A selection posted as one joined field arrives as it was exactly when every name on
  it is free of commas and of blanks at its ends. */
  lemma JoinedSelectionSurvives(entries: seq<string>)
    ensures SplitList(Join(entries, ",")) == entries <==> forall i | 0 <= i < |entries| :: IsEntry(entries[i])
  {
    hide SplitComma, TrimmedEntries, IsEntry;
    SplitCommaHasNoComma(Join(entries, ","));
    TrimmedEntriesAreEntries(SplitComma(Join(entries, ",")));
    if forall i | 0 <= i < |entries| :: IsEntry(entries[i]) {
      SplitListOfJoin(entries);
    }
  }

  // ---- Differences ---------------------------------------------------------------------

  /** The entries of `a` that are not in `b`, in order. */
  function Without(a: seq<string>, b: seq<string>): (r: seq<string>)
    ensures forall x :: x in r <==> x in a && x !in b
  {
    if |a| == 0 then []
    else
      var last := a[|a| - 1];
      Without(a[..|a| - 1], b) + if last in b then [] else [last]
  }

  /** listDiff: two passes. */
  method ListDiff(cur: seq<string>, orig: seq<string>) returns (added: seq<string>, removed: seq<string>)
    ensures added == Without(cur, orig) && removed == Without(orig, cur)
  {
    added, removed := [], [];
    for i := 0 to |cur|
      invariant added == Without(cur[..i], orig)
    {
      assert cur[..i + 1][..i] == cur[..i];
      if cur[i] !in orig {
        added := added + [cur[i]];
      }
    }
    assert cur[..|cur|] == cur;
    for i := 0 to |orig|
      invariant removed == Without(orig[..i], cur)
    {
      assert orig[..i + 1][..i] == orig[..i];
      if orig[i] !in cur {
        removed := removed + [orig[i]];
      }
    }
    assert orig[..|orig|] == orig;
  }
}
