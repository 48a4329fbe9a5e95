/**
 * The group/render formatter `displayFonts` and `showError`
 * (functions/display.js:1-44). The results area is modelled by its structure:
 * one group per family with its header, and one entry per record with its label
 * and, in the side panel, its `data-font-*` attributes. The popup's copy of
 * `displayFonts` (popup.js:84-119) is the same code without the attributes.
 */
module Display {
  import opened Wrappers
  import opened Strings
  import opened Fonts

  /** The markup an empty font list puts into the results area. */
  const NO_RESULTS_HTML := "<p class=\"no-results\">No fonts found</p>"

  /** The `data-font-*` attributes of one rendered entry. */
  datatype EntryMeta = EntryMeta(fontKey: string, family: string, weight: string, fontSize: string, lineHeight: string)

  /** One `.font-combination` element: its text and, when rendered with metadata, its attributes. */
  datatype Entry = Entry(text: string, meta: Option<EntryMeta>)

  /** One `.font-group`: the family, its header text and its entries. */
  datatype Group = Group(family: string, header: string, entries: seq<Entry>)

  /** What the results area holds: nothing, the placeholder markup, or a `.font-list`. */
  datatype Results = Cleared | Placeholder(markup: string) | FontList(groups: seq<Group>)

  /** The entry text `- ${fontSize}/${lineHeight}, (${weight})`. */
  function Label(font: FontRecord): string
  {
    "- " + font.fontSize + "/" + font.lineHeight + ", (" + font.weight + ")"
  }

  /** The group header text `[${family}]`. */
  function Header(family: string): string
  {
    "[" + family + "]"
  }

  function EntryFor(font: FontRecord, withMetadata: bool): Entry
  {
    var meta := EntryMeta(RecordKey(font), font.family, font.weight, font.fontSize, font.lineHeight);
    Entry(Label(font), if withMetadata then Some(meta) else None)
  }

  function EntriesFor(fonts: seq<FontRecord>, withMetadata: bool): seq<Entry>
  {
    seq(|fonts|, k requires 0 <= k < |fonts| => EntryFor(fonts[k], withMetadata))
  }

  /** The keys of `fontsByFamily` in insertion order: each family once, at its first record. */
  function Families(fonts: seq<FontRecord>): seq<string>
    decreases |fonts|
  {
    if fonts == [] then []
    else
      var prefix := Families(fonts[..|fonts| - 1]);
      var family := fonts[|fonts| - 1].family;
      if family in prefix then prefix else prefix + [family]
  }

  /** `fontsByFamily.get(family)`: the records of that family, in input order. */
  function Filter(fonts: seq<FontRecord>, family: string): seq<FontRecord>
    decreases |fonts|
  {
    if fonts == [] then []
    else
      var prefix := Filter(fonts[..|fonts| - 1], family);
      if fonts[|fonts| - 1].family == family then prefix + [fonts[|fonts| - 1]] else prefix
  }

  predicate Distinct(s: seq<string>)
  {
    forall i, j :: 0 <= i < j < |s| ==> s[i] != s[j]
  }

  predicate Ascending(s: seq<string>)
  {
    forall i, j :: 0 <= i < j < |s| ==> Below(s[i], s[j])
  }

  /** Inserts a family into an ascending list (a step of the sort by the standard comparator). */
  function InsertFamily(family: string, sorted: seq<string>): seq<string>
    decreases |sorted|
  {
    if sorted == [] then [family]
    else if Below(family, sorted[0]) then [family] + sorted
    else [sorted[0]] + InsertFamily(family, sorted[1..])
  }

  /** `sortedFamilies`: the families in ascending order (`localeCompare` replaced by `Below`). */
  function SortFamilies(families: seq<string>): seq<string>
    decreases |families|
  {
    if families == [] then [] else InsertFamily(families[0], SortFamilies(families[1..]))
  }

  function GroupFor(fonts: seq<FontRecord>, family: string, withMetadata: bool): Group
  {
    Group(family, Header(family), EntriesFor(Filter(fonts, family), withMetadata))
  }

  function GroupsFor(fonts: seq<FontRecord>, families: seq<string>, withMetadata: bool): seq<Group>
  {
    seq(|families|, j requires 0 <= j < |families| => GroupFor(fonts, families[j], withMetadata))
  }

  /** The `.font-group`s of a non-empty font list, in the order they are rendered. */
  function GroupView(fonts: seq<FontRecord>, withMetadata: bool): seq<Group>
  {
    GroupsFor(fonts, SortFamilies(Families(fonts)), withMetadata)
  }

  /** What `displayFonts` leaves in the results area. */
  function Render(fonts: seq<FontRecord>, withMetadata: bool): Results
  {
    if |fonts| == 0 then Placeholder(NO_RESULTS_HTML) else FontList(GroupView(fonts, withMetadata))
  }

  /** All entries of a group list, in document order. */
  function AllEntries(groups: seq<Group>): seq<Entry>
    decreases |groups|
  {
    if groups == [] then [] else groups[0].entries + AllEntries(groups[1..])
  }

  function KeysOf(entries: seq<Entry>): seq<Option<string>>
  {
    seq(|entries|, k requires 0 <= k < |entries| =>
      if entries[k].meta.Some? then Some(entries[k].meta.value.fontKey) else None)
  }

  /**
   * The `data-font-key` of each `.font-combination` in the results area, in
   * document order (`None` for an entry without the attribute).
   */
  function EntryKeys(results: Results): seq<Option<string>>
  {
    if results.FontList? then KeysOf(AllEntries(results.groups)) else []
  }

  /** The records of the given families, family by family. */
  function FiltersOf(fonts: seq<FontRecord>, families: seq<string>): seq<FontRecord>
    decreases |families|
  {
    if families == [] then [] else Filter(fonts, families[0]) + FiltersOf(fonts, families[1..])
  }

  /** `a` is `b` with some elements left out, the rest in the same order. */
  predicate IsSubsequence<T(==)>(a: seq<T>, b: seq<T>)
    decreases |b|
  {
    if a == [] then true
    else if b == [] then false
    else if a[|a| - 1] == b[|b| - 1] then IsSubsequence(a[..|a| - 1], b[..|b| - 1])
    else IsSubsequence(a, b[..|b| - 1])
  }

  // ---------------------------------------------------------------------------
  // Grouping

  lemma FamiliesStep(fonts: seq<FontRecord>, i: nat)
    requires i < |fonts|
    ensures Families(fonts[..i + 1]) ==
      if fonts[i].family in Families(fonts[..i]) then Families(fonts[..i]) else Families(fonts[..i]) + [fonts[i].family]
  {
    assert fonts[..i + 1][..i] == fonts[..i];
  }

  lemma FilterStep(fonts: seq<FontRecord>, i: nat, family: string)
    requires i < |fonts|
    ensures Filter(fonts[..i + 1], family) ==
      if fonts[i].family == family then Filter(fonts[..i], family) + [fonts[i]] else Filter(fonts[..i], family)
  {
    assert fonts[..i + 1][..i] == fonts[..i];
  }

  /** Some record has this family. */
  predicate HasFamily(fonts: seq<FontRecord>, family: string)
  {
    exists i :: 0 <= i < |fonts| && fonts[i].family == family
  }

  /** The families list names each family once, and exactly the families of the records. */
  lemma {:induction false} FamiliesSpec(fonts: seq<FontRecord>)
    ensures Distinct(Families(fonts))
    ensures forall f :: f in Families(fonts) <==> HasFamily(fonts, f)
    decreases |fonts|
  {
    if fonts != [] {
      var n := |fonts| - 1;
      var p := fonts[..n];
      FamiliesSpec(p);
      forall f
        ensures HasFamily(fonts, f) <==> f == fonts[n].family || HasFamily(p, f)
      {
        if HasFamily(fonts, f) {
          var i :| 0 <= i < |fonts| && fonts[i].family == f;
          if i < n {
            assert p[i].family == f;
          }
        }
        if HasFamily(p, f) {
          var i :| 0 <= i < |p| && p[i].family == f;
          assert fonts[i].family == f;
        }
      }
    }
  }

  /**
   * A family's records are exactly the input records of that family, each as
   * often as in the input, in input order.
   */
  lemma {:induction false} FilterSpec(fonts: seq<FontRecord>, family: string)
    ensures forall r :: r in Filter(fonts, family) <==> r in fonts && r.family == family
    ensures forall r :: multiset(Filter(fonts, family))[r] == if r.family == family then multiset(fonts)[r] else 0
    ensures IsSubsequence(Filter(fonts, family), fonts)
    decreases |fonts|
  {
    if fonts != [] {
      var n := |fonts| - 1;
      var p := fonts[..n];
      FilterSpec(p, family);
      assert fonts == p + [fonts[n]];
      assert multiset(fonts) == multiset(p) + multiset{fonts[n]};
      var r := Filter(fonts, family);
      if fonts[n].family == family {
        assert r == Filter(p, family) + [fonts[n]];
        assert r[..|r| - 1] == Filter(p, family);
        assert multiset(r) == multiset(Filter(p, family)) + multiset{fonts[n]};
      }
    }
  }

  /** A family no record has gets an empty list. */
  lemma {:induction false} FilterNone(fonts: seq<FontRecord>, family: string)
    requires !HasFamily(fonts, family)
    ensures Filter(fonts, family) == []
    decreases |fonts|
  {
    if fonts != [] {
      var n := |fonts| - 1;
      assert !HasFamily(fonts[..n], family) by {
        forall i | 0 <= i < n
          ensures fonts[..n][i].family != family
        {
          assert fonts[..n][i] == fonts[i];
        }
      }
      assert fonts[n].family != family;
      FilterNone(fonts[..n], family);
    }
  }

  // ---------------------------------------------------------------------------
  // Sorting

  lemma {:induction false} InsertFamilySpec(family: string, sorted: seq<string>)
    requires Ascending(sorted) && family !in sorted
    ensures Ascending(InsertFamily(family, sorted))
    ensures multiset(InsertFamily(family, sorted)) == multiset(sorted) + multiset{family}
    decreases |sorted|
  {
    if sorted != [] && !Below(family, sorted[0]) {
      var rest := InsertFamily(family, sorted[1..]);
      InsertFamilySpec(family, sorted[1..]);
      BelowTotal(family, sorted[0]);
      assert sorted == [sorted[0]] + sorted[1..];
      forall k | 0 <= k < |rest|
        ensures Below(sorted[0], rest[k])
      {
        assert rest[k] in multiset(rest);
        if rest[k] != family {
          assert rest[k] in sorted[1..];
        }
      }
    } else if sorted != [] {
      forall k | 0 < k < |sorted|
        ensures Below(family, sorted[k])
      {
        BelowTransitive(family, sorted[0], sorted[k]);
      }
    }
  }

  /** Sorting distinct families gives them in strictly ascending order, none lost or added. */
  lemma {:induction false} SortFamiliesSpec(families: seq<string>)
    requires Distinct(families)
    ensures Ascending(SortFamilies(families))
    ensures multiset(SortFamilies(families)) == multiset(families)
    decreases |families|
  {
    if families != [] {
      var rest := families[1..];
      assert Distinct(rest);
      SortFamiliesSpec(rest);
      assert families == [families[0]] + rest;
      assert families[0] !in rest;
      assert families[0] !in multiset(SortFamilies(rest));
      InsertFamilySpec(families[0], SortFamilies(rest));
    }
  }

  /** An ascending list has no repeats. */
  lemma AscendingDistinct(s: seq<string>)
    requires Ascending(s)
    ensures Distinct(s)
  {
    forall i, j | 0 <= i < j < |s|
      ensures s[i] != s[j]
    {
      BelowIrreflexive(s[i]);
    }
  }

  // ---------------------------------------------------------------------------
  // The loops of displayFonts

  /** Reaching record `i` appends it to its own family's list and to no other. */
  lemma FilterStepAll(fonts: seq<FontRecord>, i: nat)
    requires i < |fonts|
    ensures forall f ::
      Filter(fonts[..i + 1], f) == (if fonts[i].family == f then Filter(fonts[..i], f) + [fonts[i]] else Filter(fonts[..i], f))
  {
    forall f
      ensures Filter(fonts[..i + 1], f) ==
        if fonts[i].family == f then Filter(fonts[..i], f) + [fonts[i]] else Filter(fonts[..i], f)
    {
      FilterStep(fonts, i, f);
    }
  }

  /** The grouping `forEach` of `displayFonts` (functions/display.js:11-16, popup.js:96-102). */
  method GroupByFamily(fonts: seq<FontRecord>) returns (order: seq<string>, fontsByFamily: map<string, seq<FontRecord>>)
    ensures order == Families(fonts)
    ensures forall f :: f in fontsByFamily <==> HasFamily(fonts, f)
    ensures forall f :: f in fontsByFamily ==> fontsByFamily[f] == Filter(fonts, f)
  {
    order := [];
    fontsByFamily := map[];
    var i := 0;
    while i < |fonts|
      invariant 0 <= i <= |fonts|
      invariant order == Families(fonts[..i])
      invariant forall f :: f in fontsByFamily <==> f in order
      invariant forall f :: f in fontsByFamily ==> fontsByFamily[f] == Filter(fonts[..i], f)
    {
      var font := fonts[i];
      FamiliesStep(fonts, i);
      FilterStepAll(fonts, i);
      if font.family !in fontsByFamily {
        FamiliesSpec(fonts[..i]);
        FilterNone(fonts[..i], font.family);
        fontsByFamily := fontsByFamily[font.family := []];
        order := order + [font.family];
      }
      fontsByFamily := fontsByFamily[font.family := fontsByFamily[font.family] + [font]];
      i := i + 1;
    }
    assert fonts[..|fonts|] == fonts;
    FamiliesSpec(fonts);
  }

  /** The rendering loops of `displayFonts` over the sorted families (functions/display.js:22-35, popup.js:108-116). */
  method RenderGroups(fonts: seq<FontRecord>, sortedFamilies: seq<string>, fontsByFamily: map<string, seq<FontRecord>>, withMetadata: bool)
    returns (groups: seq<Group>)
    requires forall f :: f in sortedFamilies ==> f in fontsByFamily && fontsByFamily[f] == Filter(fonts, f)
    ensures groups == GroupsFor(fonts, sortedFamilies, withMetadata)
  {
    groups := [];
    var j := 0;
    while j < |sortedFamilies|
      invariant 0 <= j <= |sortedFamilies|
      invariant groups == GroupsFor(fonts, sortedFamilies[..j], withMetadata)
    {
      var family := sortedFamilies[j];
      var familyFonts := fontsByFamily[family];
      var entries: seq<Entry> := [];
      var k := 0;
      while k < |familyFonts|
        invariant 0 <= k <= |familyFonts|
        invariant entries == EntriesFor(familyFonts[..k], withMetadata)
      {
        entries := entries + [EntryFor(familyFonts[k], withMetadata)];
        k := k + 1;
      }
      assert familyFonts[..k] == familyFonts;
      groups := groups + [Group(family, Header(family), entries)];
      assert sortedFamilies[..j + 1] == sortedFamilies[..j] + [family];
      j := j + 1;
    }
    assert sortedFamilies[..j] == sortedFamilies;
  }

  /** The font-list part of `displayFonts`: group, sort the families, render. */
  method BuildGroups(fonts: seq<FontRecord>, withMetadata: bool) returns (groups: seq<Group>)
    ensures groups == GroupView(fonts, withMetadata)
  {
    var order, fontsByFamily := GroupByFamily(fonts);
    var sortedFamilies := SortFamilies(order);
    FamiliesSpec(fonts);
    SortFamiliesSpec(order);
    forall f | f in sortedFamilies
      ensures f in fontsByFamily
    {
      assert f in multiset(order);
    }
    groups := RenderGroups(fonts, sortedFamilies, fontsByFamily, withMetadata);
  }

  // ---------------------------------------------------------------------------
  // What the rendered list promises

  /** Groups appear in strictly ascending family order, so no family is repeated. */
  lemma GroupViewAscending(fonts: seq<FontRecord>, withMetadata: bool)
    ensures forall j, k :: 0 <= j < k < |GroupView(fonts, withMetadata)| ==>
      Below(GroupView(fonts, withMetadata)[j].family, GroupView(fonts, withMetadata)[k].family)
    ensures forall j, k :: 0 <= j < k < |GroupView(fonts, withMetadata)| ==>
      GroupView(fonts, withMetadata)[j].family != GroupView(fonts, withMetadata)[k].family
  {
    FamiliesSpec(fonts);
    SortFamiliesSpec(Families(fonts));
    AscendingDistinct(SortFamilies(Families(fonts)));
  }

  /** There is a group for a family exactly when some record has that family. */
  lemma GroupViewFamilies(fonts: seq<FontRecord>, withMetadata: bool, family: string)
    ensures (exists j :: 0 <= j < |GroupView(fonts, withMetadata)| && GroupView(fonts, withMetadata)[j].family == family)
      <==> HasFamily(fonts, family)
  {
    var sorted := SortFamilies(Families(fonts));
    FamiliesSpec(fonts);
    SortFamiliesSpec(Families(fonts));
    assert family in sorted <==> family in multiset(Families(fonts));
    if family in sorted {
      var j :| 0 <= j < |sorted| && sorted[j] == family;
      assert GroupView(fonts, withMetadata)[j].family == family;
    }
  }

  lemma FilterOfAppend(xs: seq<FontRecord>, x: FontRecord, family: string)
    ensures Filter(xs + [x], family) == if x.family == family then Filter(xs, family) + [x] else Filter(xs, family)
  {
    assert (xs + [x])[..|xs|] == xs;
  }

  lemma {:induction false} FiltersOfAppend(xs: seq<FontRecord>, x: FontRecord, families: seq<string>)
    requires Distinct(families)
    ensures multiset(FiltersOf(xs + [x], families)) ==
      multiset(FiltersOf(xs, families)) + (if x.family in families then multiset{x} else multiset{})
    decreases |families|
  {
    if families != [] {
      var rest := families[1..];
      assert Distinct(rest);
      FilterOfAppend(xs, x, families[0]);
      FiltersOfAppend(xs, x, rest);
      assert families == [families[0]] + rest;
      assert x.family == families[0] ==> x.family !in rest;
    }
  }

  /** Splitting records by a list of distinct families that covers them loses and repeats none. */
  lemma {:induction false} FiltersOfCovers(xs: seq<FontRecord>, families: seq<string>)
    requires Distinct(families)
    requires forall i :: 0 <= i < |xs| ==> xs[i].family in families
    ensures multiset(FiltersOf(xs, families)) == multiset(xs)
    decreases |xs|
  {
    if xs == [] {
      FiltersOfEmpty(families);
    } else {
      var n := |xs| - 1;
      var p := xs[..n];
      FiltersOfCovers(p, families);
      assert xs == p + [xs[n]];
      FiltersOfAppend(p, xs[n], families);
    }
  }

  lemma {:induction false} FiltersOfEmpty(families: seq<string>)
    ensures FiltersOf([], families) == []
    decreases |families|
  {
    if families != [] {
      FiltersOfEmpty(families[1..]);
    }
  }

  lemma {:induction false} EntriesForAppend(a: seq<FontRecord>, b: seq<FontRecord>, withMetadata: bool)
    ensures EntriesFor(a + b, withMetadata) == EntriesFor(a, withMetadata) + EntriesFor(b, withMetadata)
  {
  }

  lemma {:induction false} AllEntriesOfGroups(fonts: seq<FontRecord>, families: seq<string>, withMetadata: bool)
    ensures AllEntries(GroupsFor(fonts, families, withMetadata)) == EntriesFor(FiltersOf(fonts, families), withMetadata)
    decreases |families|
  {
    if families != [] {
      var groups := GroupsFor(fonts, families, withMetadata);
      assert groups[1..] == GroupsFor(fonts, families[1..], withMetadata);
      AllEntriesOfGroups(fonts, families[1..], withMetadata);
      EntriesForAppend(Filter(fonts, families[0]), FiltersOf(fonts, families[1..]), withMetadata);
    }
  }

  /** The records behind the rendered entries, in document order. */
  function RenderedRecords(fonts: seq<FontRecord>): seq<FontRecord>
  {
    FiltersOf(fonts, SortFamilies(Families(fonts)))
  }

  /**
   * Every input record is rendered exactly once: the entries, in document
   * order, are those of a rearrangement of the input.
   */
  lemma EveryRecordRenderedOnce(fonts: seq<FontRecord>, withMetadata: bool)
    ensures multiset(RenderedRecords(fonts)) == multiset(fonts)
    ensures AllEntries(GroupView(fonts, withMetadata)) == EntriesFor(RenderedRecords(fonts), withMetadata)
  {
    var families := Families(fonts);
    var sorted := SortFamilies(families);
    FamiliesSpec(fonts);
    SortFamiliesSpec(families);
    AscendingDistinct(sorted);
    forall i | 0 <= i < |fonts|
      ensures fonts[i].family in sorted
    {
      assert HasFamily(fonts, fonts[i].family);
      assert fonts[i].family in multiset(families);
    }
    FiltersOfCovers(fonts, sorted);
    AllEntriesOfGroups(fonts, sorted, withMetadata);
  }

  /**
   * Each record has an entry under its own family's group, whose header is
   * `[family]`, whose text is `- size/lineHeight, (weight)` and whose metadata,
   * when rendered, holds the key `family|weight|size|lineHeight` and the four values.
   */
  lemma RenderedEntry(fonts: seq<FontRecord>, withMetadata: bool, font: FontRecord)
    requires font in fonts
    ensures exists j, k :: (0 <= j < |GroupView(fonts, withMetadata)| &&
      var g := GroupView(fonts, withMetadata)[j];
      g.family == font.family && g.header == "[" + font.family + "]" &&
      0 <= k < |g.entries| &&
      g.entries[k].text == "- " + font.fontSize + "/" + font.lineHeight + ", (" + font.weight + ")" &&
      g.entries[k].meta == (if withMetadata then
        Some(EntryMeta(font.family + "|" + font.weight + "|" + font.fontSize + "|" + font.lineHeight,
                       font.family, font.weight, font.fontSize, font.lineHeight))
        else None))
  {
    var i :| 0 <= i < |fonts| && fonts[i] == font;
    assert HasFamily(fonts, font.family);
    GroupViewFamilies(fonts, withMetadata, font.family);
    var gv := GroupView(fonts, withMetadata);
    var j :| 0 <= j < |gv| && gv[j].family == font.family;
    FilterSpec(fonts, font.family);
    var rs := Filter(fonts, font.family);
    var k :| 0 <= k < |rs| && rs[k] == font;
    assert gv[j].entries[k] == EntryFor(font, withMetadata);
  }

  /** Every record's key is carried by some rendered entry, so a hover report for it can be matched. */
  lemma RenderedKeyPresent(fonts: seq<FontRecord>, font: FontRecord)
    requires font in fonts
    ensures Some(RecordKey(font)) in EntryKeys(Render(fonts, true))
  {
    EveryRecordRenderedOnce(fonts, true);
    var rs := RenderedRecords(fonts);
    assert font in multiset(rs);
    var k :| 0 <= k < |rs| && rs[k] == font;
    var entries := AllEntries(GroupView(fonts, true));
    assert entries[k] == EntryFor(font, true);
    assert KeysOf(entries)[k] == Some(RecordKey(font));
  }

  /**
   * The popup's rendering (no metadata) has the same groups, headers and
   * entry texts as the side panel's, and no entry carries attributes.
   */
  lemma PopupRenderingIsBare(fonts: seq<FontRecord>)
    ensures |GroupView(fonts, false)| == |GroupView(fonts, true)|
    ensures forall j :: 0 <= j < |GroupView(fonts, false)| ==>
      var bare, full := GroupView(fonts, false)[j], GroupView(fonts, true)[j];
      bare.family == full.family && bare.header == full.header && |bare.entries| == |full.entries| &&
      forall k :: 0 <= k < |bare.entries| ==> bare.entries[k].text == full.entries[k].text && bare.entries[k].meta == None
  {
  }

  /** The DOM elements `displayFonts` and `showError` write: loading indicator, error area and results area. */
  class Panel {
    var loadingVisible: bool
    var errorText: string
    var errorVisible: bool
    var results: Results
    /** Indices (document order) of the entries carrying the `highlighted` class. */
    var highlighted: set<nat>

    /** Only entries that exist can be highlighted. */
    ghost predicate Valid()
      reads this
    {
      forall i :: i in highlighted ==> i < |EntryKeys(results)|
    }

    /** The page as loaded: indicator and error hidden, results empty. */
    constructor ()
      ensures Valid()
      ensures !loadingVisible && errorText == "" && !errorVisible && results == Cleared && highlighted == {}
    {
      loadingVisible := false;
      errorText := "";
      errorVisible := false;
      results := Cleared;
      highlighted := {};
    }

    /**
     * `displayFonts` (functions/display.js:1-36; popup.js:84-119 without
     * metadata): hides the indicator and replaces the results area, which
     * drops any highlight; the error area is left alone.
     */
    method DisplayFonts(fonts: seq<FontRecord>, withMetadata: bool)
      modifies this
      ensures Valid()
      ensures !loadingVisible
      ensures results == Render(fonts, withMetadata)
      ensures |fonts| == 0 ==> results == Placeholder("<p class=\"no-results\">No fonts found</p>")
      ensures highlighted == {}
      ensures errorText == old(errorText) && errorVisible == old(errorVisible)
    {
      loadingVisible := false;
      highlighted := {};
      if |fonts| == 0 {
        results := Placeholder(NO_RESULTS_HTML);
        return;
      }
      var groups := BuildGroups(fonts, withMetadata);
      results := FontList(groups);
    }

    /** `showError` (functions/display.js:40-44, popup.js:121-125): hide the indicator, show the message. */
    method ShowError(message: string)
      requires Valid()
      modifies this
      ensures Valid()
      ensures !loadingVisible && errorText == message && errorVisible
      ensures results == old(results) && highlighted == old(highlighted)
    {
      loadingVisible := false;
      errorText := message;
      errorVisible := true;
    }
  }
}
