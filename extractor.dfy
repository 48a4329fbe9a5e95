/**
 * The font extractor `scanAllFonts` (functions/api.js:4-35; popup.js:51-82 is
 * the same code). The document is the sequence of its elements' computed
 * styles in document order.
 */
module Extractor {
  import opened Fonts

  /** Some element before index `i` produced the same `|`-joined key as element `i`. */
  predicate SeenBefore(doc: seq<RawStyle>, i: nat)
    requires i < |doc|
  {
    exists k :: 0 <= k < i && RawKey(doc[k]) == RawKey(doc[i])
  }

  /** The indices of the elements whose key is new when they are reached, ascending. */
  function FirstSeen(doc: seq<RawStyle>): (r: seq<nat>)
    ensures |r| <= |doc|
    ensures forall j :: 0 <= j < |r| ==> r[j] < |doc|
    ensures forall j, j' :: 0 <= j < j' < |r| ==> r[j] < r[j']
    decreases |doc|
  {
    if doc == [] then []
    else
      var prefix := FirstSeen(doc[..|doc| - 1]);
      if SeenBefore(doc, |doc| - 1) then prefix else prefix + [|doc| - 1]
  }

  /** The records kept by the extractor: one per first-seen element, in document order. */
  function Extract(doc: seq<RawStyle>): seq<FontRecord>
    decreases |doc|
  {
    if doc == [] then []
    else
      var prefix := Extract(doc[..|doc| - 1]);
      if SeenBefore(doc, |doc| - 1) then prefix else prefix + [FontProperties(doc[|doc| - 1])]
  }

  /** `scanAllFonts`: the `forEach` over all elements filling the key map, then its values in insertion order. */
  method ScanAllFonts(doc: seq<RawStyle>) returns (fonts: seq<FontRecord>)
    ensures fonts == Extract(doc)
  {
    var seen: set<string> := {};
    fonts := [];
    var i := 0;
    while i < |doc|
      invariant 0 <= i <= |doc|
      invariant seen == KeysUpTo(doc, i)
      invariant fonts == Extract(doc[..i])
    {
      var style := doc[i];
      var key := RawKey(style);
      ExtractStep(doc, i);
      KeysUpToStep(doc, i);
      if key !in seen {
        seen := seen + {key};
        fonts := fonts + [FontProperties(style)];
      }
      i := i + 1;
    }
    assert doc[..|doc|] == doc;
  }

  /** The keys of the first `i` elements: the key set `fontMap` holds after them. */
  function KeysUpTo(doc: seq<RawStyle>, i: nat): set<string>
    requires i <= |doc|
  {
    set k | 0 <= k < i :: RawKey(doc[k])
  }

  /** Reaching element `i` adds its key; the key was present iff an earlier element had it. */
  lemma KeysUpToStep(doc: seq<RawStyle>, i: nat)
    requires i < |doc|
    ensures KeysUpTo(doc, i + 1) == KeysUpTo(doc, i) + {RawKey(doc[i])}
    ensures RawKey(doc[i]) in KeysUpTo(doc, i) <==> SeenBefore(doc, i)
  {
  }

  /** Reaching element `i` appends its record exactly when its key is new. */
  lemma ExtractStep(doc: seq<RawStyle>, i: nat)
    requires i < |doc|
    ensures Extract(doc[..i + 1]) == Extract(doc[..i]) + (if SeenBefore(doc, i) then [] else [FontProperties(doc[i])])
  {
    var p := doc[..i + 1];
    assert p[..i] == doc[..i];
    SeenBeforeInPrefix(doc, i + 1, i);
  }

  /** Whether an element comes before a later one is unaffected by cutting the document after it. */
  lemma SeenBeforeInPrefix(doc: seq<RawStyle>, n: nat, i: nat)
    requires i < n <= |doc|
    ensures SeenBefore(doc[..n], i) == SeenBefore(doc, i)
  {
    if SeenBefore(doc, i) {
      var k :| 0 <= k < i && RawKey(doc[k]) == RawKey(doc[i]);
      assert RawKey(doc[..n][k]) == RawKey(doc[..n][i]);
    }
  }

  /** An index is first-seen exactly when it is an element whose key no earlier element had. */
  lemma {:induction false} FirstSeenExactly(doc: seq<RawStyle>, i: nat)
    ensures i in FirstSeen(doc) <==> i < |doc| && !SeenBefore(doc, i)
    decreases |doc|
  {
    if doc != [] {
      var n := |doc| - 1;
      FirstSeenExactly(doc[..n], i);
      if i < n {
        SeenBeforeInPrefix(doc, n, i);
      }
    }
  }

  /** The records are the normalised styles of the first-seen elements, position by position. */
  lemma {:induction false} ExtractAt(doc: seq<RawStyle>)
    ensures |Extract(doc)| == |FirstSeen(doc)|
    ensures forall j :: 0 <= j < |Extract(doc)| ==> Extract(doc)[j] == FontProperties(doc[FirstSeen(doc)[j]])
    decreases |doc|
  {
    if doc != [] {
      var n := |doc| - 1;
      var p := doc[..n];
      ExtractAt(p);
      var fs, fp := FirstSeen(doc), FirstSeen(p);
      var es, ep := Extract(doc), Extract(p);
      if SeenBefore(doc, n) {
        assert fs == fp && es == ep;
      } else {
        assert fs == fp + [n] && es == ep + [FontProperties(doc[n])];
      }
      forall j | 0 <= j < |ep|
        ensures es[j] == FontProperties(doc[fs[j]])
      {
        assert es[j] == ep[j] == FontProperties(p[fp[j]]);
        assert fs[j] == fp[j];
      }
    }
  }

  /** At most one record per key: the first-seen elements have pairwise different keys. */
  lemma FirstSeenKeysDistinct(doc: seq<RawStyle>, j: nat, j': nat)
    requires j < j' < |FirstSeen(doc)|
    ensures RawKey(doc[FirstSeen(doc)[j]]) != RawKey(doc[FirstSeen(doc)[j']])
  {
    var fs := FirstSeen(doc);
    FirstSeenExactly(doc, fs[j']);
    assert fs[j] < fs[j'];
  }

  /** Every element's key is the key of a first-seen element at or before it. */
  lemma {:induction false} FirstSeenCovers(doc: seq<RawStyle>, i: nat)
    requires i < |doc|
    ensures exists j :: 0 <= j < |FirstSeen(doc)| && FirstSeen(doc)[j] <= i && RawKey(doc[FirstSeen(doc)[j]]) == RawKey(doc[i])
    decreases i
  {
    var fs := FirstSeen(doc);
    if SeenBefore(doc, i) {
      var k :| 0 <= k < i && RawKey(doc[k]) == RawKey(doc[i]);
      FirstSeenCovers(doc, k);
    } else {
      FirstSeenExactly(doc, i);
      var j :| 0 <= j < |fs| && fs[j] == i;
    }
  }

  /** The extractor keeps at most one record per element; an empty document gives none. */
  lemma ExtractLength(doc: seq<RawStyle>)
    ensures |Extract(doc)| <= |doc|
    ensures doc == [] ==> Extract(doc) == []
  {
    ExtractAt(doc);
  }

  /**
   * Distinct records come from elements with distinct raw tuples, and (when
   * weight, size and line height carry no `|`) every raw tuple of the document
   * has exactly one first-seen element.
   */
  lemma OneRecordPerTuple(doc: seq<RawStyle>, i: nat)
    requires i < |doc|
    requires forall k :: 0 <= k < |doc| ==> PlainValues(doc[k])
    ensures exists j :: 0 <= j < |FirstSeen(doc)| && doc[FirstSeen(doc)[j]] == doc[i]
    ensures forall j, j' :: 0 <= j < j' < |FirstSeen(doc)| ==> doc[FirstSeen(doc)[j]] != doc[FirstSeen(doc)[j']]
  {
    var fs := FirstSeen(doc);
    FirstSeenCovers(doc, i);
    var j :| 0 <= j < |fs| && fs[j] <= i && RawKey(doc[fs[j]]) == RawKey(doc[i]);
    RawKeyInjective(doc[fs[j]], doc[i]);
    forall j1, j2 | 0 <= j1 < j2 < |fs|
      ensures doc[fs[j1]] != doc[fs[j2]]
    {
      FirstSeenKeysDistinct(doc, j1, j2);
    }
  }

  /** Completeness: every element's normalised style is among the records (plain values). */
  lemma ExtractComplete(doc: seq<RawStyle>, i: nat)
    requires i < |doc|
    requires forall k :: 0 <= k < |doc| ==> PlainValues(doc[k])
    ensures FontProperties(doc[i]) in Extract(doc)
  {
    OneRecordPerTuple(doc, i);
    var fs := FirstSeen(doc);
    var j :| 0 <= j < |fs| && doc[fs[j]] == doc[i];
    ExtractAt(doc);
    assert Extract(doc)[j] == FontProperties(doc[i]);
  }

  /**
   * Deduplication looks at the raw family: a quoted family with fallbacks and
   * the bare family are two keys, so two equal records are kept.
   */
  lemma EqualRecordsFromDistinctKeys(name: string, q: char, fallbacks: string, weight: string, size: string, lineHeight: string)
    requires IsBareName(name) && IsQuote(q)
    ensures var quoted := RawStyle([q] + name + [q] + "," + fallbacks, weight, size, lineHeight);
            var bare := RawStyle(name, weight, size, lineHeight);
            Extract([quoted, bare]) == [FontRecord(name, weight, size, lineHeight), FontRecord(name, weight, size, lineHeight)]
  {
    var quoted := RawStyle([q] + name + [q] + "," + fallbacks, weight, size, lineHeight);
    var bare := RawStyle(name, weight, size, lineHeight);
    PrimaryFamilyOfQuotedList(name, q, fallbacks);
    var doc := [quoted, bare];
    assert RawKey(quoted) != RawKey(bare) by {
      if RawKey(quoted) == RawKey(bare) {
        RawKeyInjective(quoted, bare);
      }
    }
    assert !SeenBefore(doc, 1);
    ExtractStep(doc, 0);
    ExtractStep(doc, 1);
    assert doc[..0] == [] && doc[..2] == doc;
  }

  /** When weight, size or line height contain `|`, two different tuples can share one record. */
  lemma CollidingKeysKeepOneRecord()
    ensures var a := RawStyle("A", "4|0", "0", "16px");
            var b := RawStyle("A|4", "0", "0", "16px");
            a != b && Extract([a, b]) == [FontProperties(a)] && FontProperties(b) !in Extract([a, b])
  {
    var a := RawStyle("A", "4|0", "0", "16px");
    var b := RawStyle("A|4", "0", "0", "16px");
    RawKeyCollision();
    var doc := [a, b];
    assert RawKey(doc[0]) == RawKey(doc[1]);
    assert SeenBefore(doc, 1);
    ExtractStep(doc, 0);
    ExtractStep(doc, 1);
    assert doc[..0] == [] && doc[..2] == doc;
    assert FontProperties(a).weight != FontProperties(b).weight;
  }
}
