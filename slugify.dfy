/**
 * The local slug generator: a title lower-cased, trimmed, stripped of everything but
 * `[a-z0-9\s-]`, whitespace runs turned into one hyphen, hyphen runs collapsed, and one
 * leading and one trailing hyphen removed. Each stage is one function.
 */
module Slugify {
  import opened Seqs
  import opened JsText

  predicate IsSlugAlnum(c: char) {
    'a' <= c <= 'z' || '0' <= c <= '9'
  }

  /** The characters a slug is made of: `[a-z0-9-]`. */
  predicate IsSlugChar(c: char) {
    IsSlugAlnum(c) || c == '-'
  }

  /** The characters the stripping stage keeps: `[a-z0-9\s-]`. */
  predicate IsKept(c: char) {
    IsSlugAlnum(c) || IsSpace(c) || c == '-'
  }

  predicate NotHyphen(c: char) {
    c != '-'
  }

  /** `toLowerCase` on ASCII letters; other characters are left as they are. */
  function LowerChar(c: char): char {
    if 'A' <= c <= 'Z' then (c as int + 32) as char else c
  }

  function ToLower(s: string): (r: string)
    ensures |r| == |s|
    ensures forall i :: 0 <= i < |r| ==> !('A' <= r[i] <= 'Z')
    ensures forall i :: 0 <= i < |s| && !('A' <= s[i] <= 'Z') ==> r[i] == s[i]
    ensures forall i :: 0 <= i < |s| && 'A' <= s[i] <= 'Z' ==>
      'a' <= r[i] <= 'z' && r[i] as int - 'a' as int == s[i] as int - 'A' as int
  {
    seq(|s|, i requires 0 <= i < |s| => LowerChar(s[i]))
  }

  /** `.replace(/[^a-z0-9\s-]/g, '')`. */
  function StripSpecial(s: string): string {
    Filter(s, IsKept)
  }

  /** `.replace(/\s+/g, '-')`: each maximal run of whitespace becomes one hyphen. */
  function HyphenateSpaces(s: string): string {
    if s == [] then []
    else if IsSpace(s[0]) && |s| > 1 && IsSpace(s[1]) then HyphenateSpaces(s[1..])
    else [if IsSpace(s[0]) then '-' else s[0]] + HyphenateSpaces(s[1..])
  }

  /** `.replace(/-+/g, '-')`: each maximal run of hyphens becomes one hyphen. */
  function CollapseHyphens(s: string): string {
    if s == [] then []
    else if s[0] == '-' && |s| > 1 && s[1] == '-' then CollapseHyphens(s[1..])
    else [s[0]] + CollapseHyphens(s[1..])
  }

  /** `.replace(/^-|-$/g, '')`: one leading and then one trailing hyphen removed. */
  function TrimHyphens(s: string): string {
    var t := if |s| > 0 && s[0] == '-' then s[1..] else s;
    if |t| > 0 && t[|t| - 1] == '-' then t[..|t| - 1] else t
  }

  function Slugify(title: string): string {
    TrimHyphens(CollapseHyphens(HyphenateSpaces(StripSpecial(Trim(ToLower(title))))))
  }

  predicate NoDoubleHyphen(s: string) {
    forall i :: 0 <= i < |s| - 1 ==> !(s[i] == '-' && s[i + 1] == '-')
  }

  /** A well-formed slug: `^[a-z0-9]+(-[a-z0-9]+)*$` or empty. */
  predicate IsSlug(s: string) {
    && (forall i :: 0 <= i < |s| ==> IsSlugChar(s[i]))
    && NoDoubleHyphen(s)
    && (|s| > 0 ==> s[0] != '-' && s[|s| - 1] != '-')
  }

  // ---------------------------------------------------------------------------
  // Shape of the output

  lemma {:induction false} HyphenateSpacesChars(s: string)
    requires forall i :: 0 <= i < |s| ==> IsKept(s[i])
    ensures forall i :: 0 <= i < |HyphenateSpaces(s)| ==> IsSlugChar(HyphenateSpaces(s)[i])
  {
    if s != [] {
      HyphenateSpacesChars(s[1..]);
    }
  }

  lemma {:induction false} CollapseHyphensShape(s: string)
    ensures |CollapseHyphens(s)| <= |s|
    ensures |s| > 0 ==> |CollapseHyphens(s)| > 0 && CollapseHyphens(s)[0] == s[0]
    ensures NoDoubleHyphen(CollapseHyphens(s))
    ensures (forall i :: 0 <= i < |s| ==> IsSlugChar(s[i]))
            ==> forall i :: 0 <= i < |CollapseHyphens(s)| ==> IsSlugChar(CollapseHyphens(s)[i])
  {
    if s != [] {
      CollapseHyphensShape(s[1..]);
      if !(s[0] == '-' && |s| > 1 && s[1] == '-') {
        var r := CollapseHyphens(s);
        assert r == [s[0]] + CollapseHyphens(s[1..]);
        forall i | 0 <= i < |r| - 1
          ensures !(r[i] == '-' && r[i + 1] == '-')
        {
          if i > 0 {
            assert r[i] == CollapseHyphens(s[1..])[i - 1];
          }
        }
      }
    }
  }

  lemma TrimHyphensShape(s: string)
    requires NoDoubleHyphen(s)
    ensures var r := TrimHyphens(s);
      NoDoubleHyphen(r) && (|r| > 0 ==> r[0] != '-' && r[|r| - 1] != '-')
      && forall i :: 0 <= i < |r| ==> r[i] in s
  {
    var t := if |s| > 0 && s[0] == '-' then s[1..] else s;
    assert NoDoubleHyphen(t);
    assert |t| > 0 ==> t[0] != '-';
  }

  /** The output is a well-formed slug: `[a-z0-9-]` only, no doubled, leading or trailing hyphen. */
  lemma SlugifyIsSlug(title: string)
    ensures IsSlug(Slugify(title))
  {
    var stripped := StripSpecial(Trim(ToLower(title)));
    var hyphenated := HyphenateSpaces(stripped);
    FilterMembers(Trim(ToLower(title)), IsKept);
    HyphenateSpacesChars(stripped);
    CollapseHyphensShape(hyphenated);
    TrimHyphensShape(CollapseHyphens(hyphenated));
  }

  /** A title with no ASCII letter or digit has the empty slug. */
  lemma SlugifyOfPunctuation(title: string)
    requires forall i :: 0 <= i < |title| ==> !IsSlugAlnum(LowerChar(title[i]))
    ensures Slugify(title) == []
  {
    var r := Slugify(title);
    SlugifyIsSlug(title);
    SlugifyKeepsAlnum(title);
    AlnumOfLowerNone(title);
  }

  lemma AlnumOfLowerNone(title: string)
    requires forall i :: 0 <= i < |title| ==> !IsSlugAlnum(LowerChar(title[i]))
    ensures Filter(ToLower(title), IsSlugAlnum) == []
  {
    NoAlnumFiltersToEmpty(ToLower(title));
  }

  lemma {:induction false} NoAlnumFiltersToEmpty(s: string)
    requires forall i :: 0 <= i < |s| ==> !IsSlugAlnum(s[i])
    ensures Filter(s, IsSlugAlnum) == []
  {
    if s != [] {
      NoAlnumFiltersToEmpty(s[1..]);
    }
  }

  // ---------------------------------------------------------------------------
  // The letters and digits are exactly those of the lowered title

  lemma {:induction false} TrimStartAlnum(s: string)
    ensures Filter(TrimStart(s), IsSlugAlnum) == Filter(s, IsSlugAlnum)
  {
    if |s| > 0 && IsSpace(s[0]) {
      TrimStartAlnum(s[1..]);
    }
  }

  lemma {:induction false} TrimEndAlnum(s: string)
    ensures Filter(TrimEnd(s), IsSlugAlnum) == Filter(s, IsSlugAlnum)
  {
    if |s| > 0 && IsSpace(s[|s| - 1]) {
      var init := s[..|s| - 1];
      TrimEndAlnum(init);
      assert s == init + [s[|s| - 1]];
      FilterConcat(init, [s[|s| - 1]], IsSlugAlnum);
    }
  }

  lemma {:induction false} StripSpecialAlnum(s: string)
    ensures Filter(StripSpecial(s), IsSlugAlnum) == Filter(s, IsSlugAlnum)
  {
    if s != [] {
      StripSpecialAlnum(s[1..]);
      FilterConcat(if IsKept(s[0]) then [s[0]] else [], StripSpecial(s[1..]), IsSlugAlnum);
    }
  }

  lemma {:induction false} HyphenateSpacesAlnum(s: string)
    ensures Filter(HyphenateSpaces(s), IsSlugAlnum) == Filter(s, IsSlugAlnum)
  {
    if s != [] {
      HyphenateSpacesAlnum(s[1..]);
      if !(IsSpace(s[0]) && |s| > 1 && IsSpace(s[1])) {
        FilterConcat([if IsSpace(s[0]) then '-' else s[0]], HyphenateSpaces(s[1..]), IsSlugAlnum);
      }
    }
  }

  lemma {:induction false} CollapseHyphensAlnum(s: string)
    ensures Filter(CollapseHyphens(s), IsSlugAlnum) == Filter(s, IsSlugAlnum)
  {
    if s != [] {
      CollapseHyphensAlnum(s[1..]);
      if !(s[0] == '-' && |s| > 1 && s[1] == '-') {
        FilterConcat([s[0]], CollapseHyphens(s[1..]), IsSlugAlnum);
      }
    }
  }

  lemma TrimHyphensAlnum(s: string)
    ensures Filter(TrimHyphens(s), IsSlugAlnum) == Filter(s, IsSlugAlnum)
  {
    var t := if |s| > 0 && s[0] == '-' then s[1..] else s;
    if |s| > 0 && s[0] == '-' {
      assert s == [s[0]] + t;
      FilterConcat([s[0]], t, IsSlugAlnum);
    }
    if |t| > 0 && t[|t| - 1] == '-' {
      assert t == t[..|t| - 1] + [t[|t| - 1]];
      FilterConcat(t[..|t| - 1], [t[|t| - 1]], IsSlugAlnum);
    }
  }

  lemma {:induction false} SlugAlnumIsNonHyphen(s: string)
    requires forall i :: 0 <= i < |s| ==> IsSlugChar(s[i])
    ensures Filter(s, NotHyphen) == Filter(s, IsSlugAlnum)
  {
    if s != [] {
      SlugAlnumIsNonHyphen(s[1..]);
    }
  }

  /**
   * Deleting the hyphens from the slug leaves exactly the ASCII letters and digits of
   * the lower-cased title, in order: nothing else survives and none of them is lost.
   */
  lemma SlugifyKeepsAlnum(title: string)
    ensures Filter(Slugify(title), NotHyphen) == Filter(ToLower(title), IsSlugAlnum)
  {
    var lowered := ToLower(title);
    var stripped := StripSpecial(Trim(lowered));
    var hyphenated := HyphenateSpaces(stripped);
    TrimStartAlnum(lowered);
    TrimEndAlnum(TrimStart(lowered));
    StripSpecialAlnum(Trim(lowered));
    HyphenateSpacesAlnum(stripped);
    CollapseHyphensAlnum(hyphenated);
    TrimHyphensAlnum(CollapseHyphens(hyphenated));
    SlugifyIsSlug(title);
    SlugAlnumIsNonHyphen(Slugify(title));
  }

  // ---------------------------------------------------------------------------
  // Idempotence

  lemma {:induction false} HyphenateSpacesNoSpace(s: string)
    requires forall i :: 0 <= i < |s| ==> !IsSpace(s[i])
    ensures HyphenateSpaces(s) == s
  {
    if s != [] {
      HyphenateSpacesNoSpace(s[1..]);
    }
  }

  lemma {:induction false} CollapseHyphensNoDouble(s: string)
    requires NoDoubleHyphen(s)
    ensures CollapseHyphens(s) == s
  {
    if s != [] {
      CollapseHyphensNoDouble(s[1..]);
    }
  }

  /** A well-formed slug passes through every stage unchanged. */
  lemma SlugIsFixpoint(s: string)
    requires IsSlug(s)
    ensures Slugify(s) == s
  {
    SlugLowerTrimFixed(s);
    SlugStripFixed(s);
    HyphenateSpacesNoSpace(s);
    CollapseHyphensNoDouble(s);
  }

  lemma SlugStripFixed(s: string)
    requires IsSlug(s)
    ensures StripSpecial(s) == s
  {
    FilterAll(s, IsKept);
  }

  lemma SlugLowerTrimFixed(s: string)
    requires IsSlug(s)
    ensures Trim(ToLower(s)) == s
  {
    assert forall i :: 0 <= i < |s| ==> IsSlugChar(s[i]);
    assert ToLower(s) == s;
    if s != [] {
      assert !IsSpace(s[0]) && !IsSpace(s[|s| - 1]);
    }
    assert TrimStart(s) == s;
    assert TrimEnd(s) == s;
  }

  /** slugify(slugify(t)) == slugify(t). */
  lemma SlugifyIdempotent(title: string)
    ensures Slugify(Slugify(title)) == Slugify(title)
  {
    SlugifyIsSlug(title);
    SlugIsFixpoint(Slugify(title));
  }

  /** The title "Sunset, Over the Bay!" has the slug "sunset-over-the-bay". */
  lemma SunsetExample(title: string)
    requires title == "Sunset, Over the Bay!"
    ensures Slugify(title) == "sunset-over-the-bay"
  {
    var lowered := "sunset, over the bay!";
    var stripped := "sunset over the bay";
    var slug := "sunset-over-the-bay";
    SunsetLowered(title, lowered);
    SunsetStripped(lowered, stripped);
    SunsetHyphenated(stripped, slug);
    SunsetTrimmed(slug);
  }

  lemma SunsetLowered(title: string, lowered: string)
    requires title == "Sunset, Over the Bay!" && lowered == "sunset, over the bay!"
    ensures Trim(ToLower(title)) == lowered
  {
    assert ToLower(title) == lowered;
  }

  lemma SunsetStripped(lowered: string, stripped: string)
    requires lowered == "sunset, over the bay!" && stripped == "sunset over the bay"
    ensures StripSpecial(lowered) == stripped
  {
    var a, b, c, d := "sunset", ",", " over the bay", "!";
    SunsetPieces(lowered, stripped, a, b, c, d);
    KeptWord(a);
    KeptWord(c);
    DroppedPunctuation(b);
    DroppedPunctuation(d);
    StripPieces(a, b, c, d);
  }

  lemma SunsetPieces(lowered: string, stripped: string, a: string, b: string, c: string, d: string)
    requires lowered == "sunset, over the bay!" && stripped == "sunset over the bay"
    requires a == "sunset" && b == "," && c == " over the bay" && d == "!"
    ensures lowered == (a + b) + (c + d) && stripped == a + c
  {
  }

  lemma DroppedPunctuation(w: string)
    requires w == "," || w == "!"
    ensures Filter(w, IsKept) == []
  {
  }

  lemma KeptWord(w: string)
    requires w == "sunset" || w == " over the bay"
    ensures Filter(w, IsKept) == w
  {
    FilterAll(w, IsKept);
  }

  lemma StripPieces(a: string, b: string, c: string, d: string)
    requires Filter(a, IsKept) == a && Filter(b, IsKept) == [] && Filter(c, IsKept) == c
    requires Filter(d, IsKept) == []
    ensures Filter((a + b) + (c + d), IsKept) == a + c
  {
    KeepThenDrop(a, b);
    KeepThenDrop(c, d);
    FilterConcat(a + b, c + d, IsKept);
  }

  lemma KeepThenDrop(x: string, y: string)
    requires Filter(x, IsKept) == x && Filter(y, IsKept) == []
    ensures Filter(x + y, IsKept) == x
  {
    FilterConcat(x, y, IsKept);
    assert x + [] == x;
  }

  lemma SunsetHyphenated(stripped: string, slug: string)
    requires stripped == "sunset over the bay" && slug == "sunset-over-the-bay"
    ensures HyphenateSpaces(stripped) == slug
  {
    var w1, w2, w3, w4 := "sunset", "over", "the", "bay";
    assert stripped == w1 + (" " + (w2 + (" " + (w3 + (" " + w4)))));
    assert slug == w1 + ("-" + (w2 + ("-" + (w3 + ("-" + w4)))));
    HyphenateSpacesNoSpace(w4);
    HyphenateWords(w1, w2, w3, w4);
  }

  lemma HyphenateWords(w1: string, w2: string, w3: string, w4: string)
    requires forall i :: 0 <= i < |w1| ==> !IsSpace(w1[i])
    requires forall i :: 0 <= i < |w2| ==> !IsSpace(w2[i])
    requires forall i :: 0 <= i < |w3| ==> !IsSpace(w3[i])
    requires |w2| > 0 && |w3| > 0 && |w4| > 0 && !IsSpace(w4[0])
    requires HyphenateSpaces(w4) == w4
    ensures HyphenateSpaces(w1 + (" " + (w2 + (" " + (w3 + (" " + w4))))))
         == w1 + ("-" + (w2 + ("-" + (w3 + ("-" + w4)))))
  {
    HyphenateSingleSpace(w4);
    HyphenateSpacesWord(w3, " " + w4);
    HyphenateSingleSpace(w3 + (" " + w4));
    HyphenateSpacesWord(w2, " " + (w3 + (" " + w4)));
    HyphenateSingleSpace(w2 + (" " + (w3 + (" " + w4))));
    HyphenateSpacesWord(w1, " " + (w2 + (" " + (w3 + (" " + w4)))));
  }

  lemma {:induction false} HyphenateSpacesWord(w: string, s: string)
    requires forall i :: 0 <= i < |w| ==> !IsSpace(w[i])
    ensures HyphenateSpaces(w + s) == w + HyphenateSpaces(s)
  {
    if w == [] {
      assert w + s == s;
    } else {
      var ws := w + s;
      assert ws[0] == w[0] && ws[1..] == w[1..] + s;
      HyphenateSpacesWord(w[1..], s);
      calc {
        HyphenateSpaces(ws);
        [w[0]] + HyphenateSpaces(w[1..] + s);
        [w[0]] + (w[1..] + HyphenateSpaces(s));
        ([w[0]] + w[1..]) + HyphenateSpaces(s);
        { assert w == [w[0]] + w[1..]; }
        w + HyphenateSpaces(s);
      }
    }
  }

  lemma HyphenateSingleSpace(s: string)
    requires |s| > 0 && !IsSpace(s[0])
    ensures HyphenateSpaces(" " + s) == "-" + HyphenateSpaces(s)
  {
    assert (" " + s)[1..] == s;
  }

  lemma SunsetTrimmed(slug: string)
    requires slug == "sunset-over-the-bay"
    ensures TrimHyphens(CollapseHyphens(slug)) == slug
  {
    assert IsSlug(slug);
    CollapseHyphensNoDouble(slug);
  }
}
