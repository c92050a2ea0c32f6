/** `generateSlug` and `determineRegion` from the shared GeoJSON helpers. */
module GeojsonUtils {
  import opened Text
  import opened Seqs
  import opened Beach

  // ---------------------------------------------------------------- slugs

  /** The characters the slug regex `[^a-z0-9]` does not match. */
  predicate IsAlnum(c: char) {
    'a' <= c <= 'z' || '0' <= c <= '9'
  }

  /** Only `a-z`, `0-9` and `-`, and never two dashes in a row. */
  ghost predicate WellSeparated(s: string) {
    && (forall i :: 0 <= i < |s| ==> IsAlnum(s[i]) || s[i] == '-')
    && (forall i :: 0 <= i < |s| - 1 ==> s[i] != '-' || s[i + 1] != '-')
  }

  /** The shape of every slug: well separated, with no dash at either end. */
  ghost predicate IsSlug(s: string) {
    WellSeparated(s) && (s != [] ==> s[0] != '-' && s[|s| - 1] != '-')
  }

  /** Drops the rest of a run of non-alphanumeric characters. */
  function DropSeparators(s: string): (r: string)
    ensures |r| <= |s| && r == s[|s| - |r|..]
    ensures r != [] ==> IsAlnum(r[0])
  {
    if s == [] then s
    else if IsAlnum(s[0]) then
      assert s[|s| - |s|..] == s;
      s
    else
      var r := DropSeparators(s[1..]);
      assert s[1..][|s| - 1 - |r|..] == s[|s| - |r|..];
      r
  }

  /** `.replace(/[^a-z0-9]+/g, '-')`: every maximal run of other characters becomes one dash. */
  function CollapseSeparators(s: string): (r: string)
    ensures (r == []) == (s == [])
    ensures r != [] ==> (r[0] == '-' <==> !IsAlnum(s[0]))
    decreases |s|
  {
    if s == [] then []
    else if IsAlnum(s[0]) then [s[0]] + CollapseSeparators(s[1..])
    else "-" + CollapseSeparators(DropSeparators(s[1..]))
  }

  /** The collapse leaves only letters, digits and single dashes. */
  lemma {:induction false} CollapseWellSeparated(s: string)
    ensures WellSeparated(CollapseSeparators(s))
    decreases |s|
  {
    if s != [] {
      var t := if IsAlnum(s[0]) then s[1..] else DropSeparators(s[1..]);
      var c := CollapseSeparators(t);
      CollapseWellSeparated(t);
      var r := CollapseSeparators(s);
      assert r == [r[0]] + c && (IsAlnum(r[0]) || r[0] == '-');
      assert c != [] && r[0] == '-' ==> c[0] != '-';
      assert forall i :: 1 <= i < |r| ==> r[i] == c[i - 1];
    }
  }

  /** Only dashes between positions `lo` and `hi`. */
  ghost predicate DashesBetween(s: string, lo: int, hi: int) {
    forall i :: 0 <= lo <= i < hi <= |s| ==> s[i] == '-'
  }

  /** `.replace(/^-+/, '')`: the leading dashes, and only they, are removed. */
  function TrimLeadingDashes(s: string): (r: string)
    ensures |r| <= |s| && r == s[|s| - |r|..]
    ensures r != [] ==> r[0] != '-'
    ensures DashesBetween(s, 0, |s| - |r|)
  {
    if s != [] && s[0] == '-' then
      var t := s[1..];
      var r := TrimLeadingDashes(t);
      assert forall i :: 1 <= i < |s| ==> s[i] == t[i - 1];
      r
    else
      s
  }

  /** `.replace(/-+$/, '')`: the trailing dashes, and only they, are removed. */
  function TrimTrailingDashes(s: string): (r: string)
    ensures |r| <= |s| && r == s[..|r|]
    ensures r != [] ==> r[|r| - 1] != '-'
    ensures DashesBetween(s, |r|, |s|)
  {
    if s != [] && s[|s| - 1] == '-' then
      var init := s[..|s| - 1];
      var r := TrimTrailingDashes(init);
      assert forall i :: 0 <= i < |s| - 1 ==> s[i] == init[i];
      r
    else
      s
  }

  /** `generateSlug(name)` */
  function Slug(name: string): string {
    TrimTrailingDashes(TrimLeadingDashes(CollapseSeparators(Lower(name))))
  }

  lemma WellSeparatedSlice(s: string, i: int, j: int)
    requires WellSeparated(s) && 0 <= i <= j <= |s|
    ensures WellSeparated(s[i..j])
  {
    var t := s[i..j];
    assert forall k :: 0 <= k < |t| ==> t[k] == s[i + k];
  }

  /**
   * A slug consists of `a-z`, `0-9` and `-` only, has no two consecutive dashes,
   * and neither starts nor ends with a dash.
   */
  lemma SlugShape(name: string)
    ensures IsSlug(Slug(name))
  {
    CollapseWellSeparated(Lower(name));
    TrimmedShape(CollapseSeparators(Lower(name)));
  }

  lemma WellSeparatedSuffix(s: string, k: int)
    requires WellSeparated(s) && 0 <= k <= |s|
    ensures WellSeparated(s[k..])
  {
    var t := s[k..];
    assert forall i :: 0 <= i < |t| ==> t[i] == s[k + i];
  }

  /** Trimming the dashes at both ends of a well-separated string gives a slug. */
  lemma TrimmedShape(c: string)
    requires WellSeparated(c)
    ensures IsSlug(TrimTrailingDashes(TrimLeadingDashes(c)))
  {
    var l := TrimLeadingDashes(c);
    WellSeparatedSuffix(c, |c| - |l|);
    TrimmedTrailingShape(l);
  }

  lemma TrimmedTrailingShape(l: string)
    requires WellSeparated(l) && (l != [] ==> l[0] != '-')
    ensures IsSlug(TrimTrailingDashes(l))
  {
    var r := TrimTrailingDashes(l);
    WellSeparatedSlice(l, 0, |r|);
    assert l[0..|r|] == r;
    assert r != [] ==> r[0] == l[0];
  }

  lemma {:induction false} CollapseOfWellSeparated(s: string)
    requires WellSeparated(s)
    ensures CollapseSeparators(s) == s
  {
    if s != [] {
      var rest := s[1..];
      WellSeparatedSuffix(s, 1);
      CollapseOfWellSeparated(rest);
      if IsAlnum(s[0]) {
        assert CollapseSeparators(s) == [s[0]] + rest;
      } else {
        assert rest == [] || rest[0] == s[1];
        assert DropSeparators(rest) == rest;
        assert CollapseSeparators(s) == "-" + rest;
      }
      assert s == [s[0]] + rest;
    }
  }

  function Last(s: string): char
    requires s != []
  {
    s[|s| - 1]
  }

  /** Letters and digits only. */
  predicate AllAlnum(s: string) {
    forall i :: 0 <= i < |s| ==> IsAlnum(s[i])
  }

  /** No letter or digit at all. */
  predicate NoAlnum(s: string) {
    forall i :: 0 <= i < |s| ==> !IsAlnum(s[i])
  }

  /** A word of letters and digits passes through the collapse unchanged. */
  lemma {:induction false} CollapseWord(a: string, t: string)
    requires AllAlnum(a)
    ensures CollapseSeparators(a + t) == a + CollapseSeparators(t)
  {
    if a == [] {
      assert a + t == t;
    } else {
      var rest := a[1..];
      AppendSplit(a, t);
      assert AllAlnum(rest) by {
        assert forall i :: 0 <= i < |rest| ==> rest[i] == a[i + 1];
      }
      CollapseWord(rest, t);
      assert CollapseSeparators(a + t) == [a[0]] + (rest + CollapseSeparators(t));
      AppendAssociative([a[0]], rest, CollapseSeparators(t));
    }
  }

  /** A whole run of separators in front of a word (or of the end) is dropped. */
  lemma {:induction false} DropRun(sep: string, t: string)
    requires NoAlnum(sep)
    requires t == [] || IsAlnum(t[0])
    ensures DropSeparators(sep + t) == t
  {
    if sep == [] {
      assert sep + t == t;
    } else {
      AppendSplit(sep, t);
      assert NoAlnum(sep[1..]) by {
        assert forall i :: 0 <= i < |sep| - 1 ==> sep[1..][i] == sep[i + 1];
      }
      DropRun(sep[1..], t);
    }
  }

  /** A non-empty run of separators in front of a word (or of the end) becomes exactly one dash. */
  lemma CollapseRun(sep: string, t: string)
    requires sep != [] && NoAlnum(sep)
    requires t == [] || IsAlnum(t[0])
    ensures CollapseSeparators(sep + t) == "-" + CollapseSeparators(t)
  {
    AppendSplit(sep, t);
    assert NoAlnum(sep[1..]) by {
      assert forall i :: 0 <= i < |sep| - 1 ==> sep[1..][i] == sep[i + 1];
    }
    DropRun(sep[1..], t);
  }

  predicate IsWord(w: string) {
    w != [] && AllAlnum(w)
  }

  /** `words` written one after another with `sep` between each two. */
  function Joined(words: seq<string>, sep: string): string {
    if words == [] then ""
    else if |words| == 1 then words[0]
    else words[0] + (sep + Joined(words[1..], sep))
  }

  /** A joined string starts where its first word starts and ends where its last word ends. */
  lemma {:induction false} JoinedEnds(words: seq<string>, sep: string)
    requires words != [] && forall k :: 0 <= k < |words| ==> words[k] != []
    ensures var r := Joined(words, sep);
      && r != []
      && r[0] == words[0][0]
      && r[|r| - 1] == Last(words[|words| - 1])
  {
    if |words| > 1 {
      var tail := words[1..];
      JoinedEnds(tail, sep);
      assert tail[|tail| - 1] == words[|words| - 1];
      var t := Joined(tail, sep);
      var r := words[0] + (sep + t);
      assert r[0] == words[0][0] && r[|r| - 1] == t[|t| - 1];
    }
  }

  /** Words separated by single blanks collapse to the same words separated by single dashes. */
  lemma {:induction false} CollapseJoined(words: seq<string>)
    requires forall k :: 0 <= k < |words| ==> IsWord(words[k])
    ensures CollapseSeparators(Joined(words, " ")) == Joined(words, "-")
  {
    if |words| == 1 {
      CollapseWord(words[0], "");
      assert words[0] + "" == words[0];
    } else if |words| > 1 {
      var rest := Joined(words[1..], " ");
      CollapseJoined(words[1..]);
      JoinedEnds(words[1..], " ");
      CollapseRun(" ", rest);
      CollapseWord(words[0], " " + rest);
    }
  }

  /** A string neither starting nor ending with a dash survives both trims. */
  lemma TrimsKeep(r: string)
    requires r != [] && r[0] != '-' && r[|r| - 1] != '-'
    ensures TrimTrailingDashes(TrimLeadingDashes(r)) == r
  {
  }

  /**
   * A name whose lowercase form is words separated by single blanks, such as "Main Beach Park",
   * slugs to the same words joined by single dashes ("main-beach-park"): words are kept, each
   * blank becomes one dash, and nothing is trimmed.
   */
  lemma SlugJoinsWords(name: string, words: seq<string>)
    requires words != [] && forall k :: 0 <= k < |words| ==> IsWord(words[k])
    requires Lower(name) == Joined(words, " ")
    ensures Slug(name) == Joined(words, "-")
  {
    JoinedCollapse(words);
    SlugOfCollapsed(name, Joined(words, "-"));
  }

  /** Blank-joined words collapse to the dash-joined words, which start and end with a letter or digit. */
  lemma JoinedCollapse(words: seq<string>)
    requires words != [] && forall k :: 0 <= k < |words| ==> IsWord(words[k])
    ensures var r := Joined(words, "-");
      && CollapseSeparators(Joined(words, " ")) == r
      && r != [] && r[0] != '-' && r[|r| - 1] != '-'
  {
    CollapseJoined(words);
    JoinedEnds(words, "-");
    var first, last := words[0], words[|words| - 1];
    assert IsWord(first) && IsWord(last);
    assert IsAlnum(first[0]) && IsAlnum(Last(last));
  }

  /** When the collapse neither starts nor ends with a dash, it is the slug. */
  lemma SlugOfCollapsed(name: string, r: string)
    requires CollapseSeparators(Lower(name)) == r
    requires r != [] && r[0] != '-' && r[|r| - 1] != '-'
    ensures Slug(name) == r
  {
    TrimsKeep(r);
  }

  /** A slug is its own slug. */
  lemma SlugOfSlug(s: string)
    requires IsSlug(s)
    ensures Slug(s) == s
  {
    LowerOfLowerCase(s);
    CollapseOfWellSeparated(s);
  }

  /** `generateSlug` is idempotent. */
  lemma SlugIdempotent(name: string)
    ensures Slug(Slug(name)) == Slug(name)
  {
    SlugShape(name);
    SlugOfSlug(Slug(name));
  }

  function AlnumOnly(s: string): string {
    Filter(IsAlnum, s)
  }

  lemma {:induction false} DropKeepsAlnum(s: string)
    ensures AlnumOnly(DropSeparators(s)) == AlnumOnly(s)
  {
    if s != [] && !IsAlnum(s[0]) {
      DropKeepsAlnum(s[1..]);
    }
  }

  lemma {:induction false} CollapseKeepsAlnum(s: string)
    ensures AlnumOnly(CollapseSeparators(s)) == AlnumOnly(s)
    decreases |s|
  {
    if s != [] {
      if IsAlnum(s[0]) {
        CollapseKeepsAlnum(s[1..]);
        FilterAppend(IsAlnum, [s[0]], CollapseSeparators(s[1..]));
      } else {
        CollapseKeepsAlnum(DropSeparators(s[1..]));
        DropKeepsAlnum(s[1..]);
        FilterAppend(IsAlnum, "-", CollapseSeparators(DropSeparators(s[1..])));
      }
    }
  }

  lemma {:induction false} TrimLeadingKeepsAlnum(s: string)
    ensures AlnumOnly(TrimLeadingDashes(s)) == AlnumOnly(s)
  {
    if s != [] && s[0] == '-' {
      assert TrimLeadingDashes(s) == TrimLeadingDashes(s[1..]);
      TrimLeadingKeepsAlnum(s[1..]);
      FilterSkip(IsAlnum, s);
    } else {
      assert TrimLeadingDashes(s) == s;
    }
  }

  lemma {:induction false} TrimTrailingKeepsAlnum(s: string)
    ensures AlnumOnly(TrimTrailingDashes(s)) == AlnumOnly(s)
  {
    if s != [] && s[|s| - 1] == '-' {
      var init := s[..|s| - 1];
      TrimTrailingKeepsAlnum(init);
      assert s == init + "-";
      FilterAppend(IsAlnum, init, "-");
    }
  }

  /**
   * The slug keeps exactly the letters and digits of the lowercased name, in their order;
   * only the separators between them change.
   */
  lemma SlugKeepsAlnum(name: string)
    ensures AlnumOnly(Slug(name)) == AlnumOnly(Lower(name))
  {
    var c := CollapseSeparators(Lower(name));
    CollapseKeepsAlnum(Lower(name));
    TrimLeadingKeepsAlnum(c);
    TrimTrailingKeepsAlnum(TrimLeadingDashes(c));
  }

  /** Names that differ only in letter case have the same slug. */
  lemma SlugCaseInsensitive(a: string, b: string)
    requires Lower(a) == Lower(b)
    ensures Slug(a) == Slug(b)
  {
  }

  // -------------------------------------------------------------- regions

  const NORTH_COUNTIES: seq<string> :=
    ["del norte", "humboldt", "mendocino", "sonoma", "marin", "san francisco"]

  const CENTRAL_COUNTIES: seq<string> :=
    ["san mateo", "santa cruz", "monterey", "san luis obispo"]

  /** `determineRegion(county)`: first the northern names, then the central ones, else south. */
  function DetermineRegion(county: string): (r: Region)
    ensures r == North <==> ContainsAny(Lower(county), NORTH_COUNTIES)
    ensures r == Central <==>
      !ContainsAny(Lower(county), NORTH_COUNTIES) && ContainsAny(Lower(county), CENTRAL_COUNTIES)
    ensures r == South <==>
      !ContainsAny(Lower(county), NORTH_COUNTIES) && !ContainsAny(Lower(county), CENTRAL_COUNTIES)
  {
    var countyLower := Lower(county);
    if ContainsAny(countyLower, NORTH_COUNTIES) then North
    else if ContainsAny(countyLower, CENTRAL_COUNTIES) then Central
    else South
  }

  /** The classification ignores letter case. */
  lemma RegionCaseInsensitive(county: string)
    ensures DetermineRegion(Lower(county)) == DetermineRegion(county)
  {
    LowerIdempotent(county);
  }

  /** A county whose name embeds a northern name is north, whatever else it contains. */
  lemma NorthWins(prefix: string, north: string, suffix: string)
    requires north in NORTH_COUNTIES
    ensures DetermineRegion(prefix + north + suffix) == North
  {
    NorthNamesLowerCase(north);
    LowerOfLowerCase(north);
    LowerAppend(prefix + north, suffix);
    LowerAppend(prefix, north);
    var l := Lower(prefix + north + suffix);
    assert l == Lower(prefix) + north + Lower(suffix);
    ContainsInConcat(Lower(prefix), north, Lower(suffix));
    assert north in NORTH_COUNTIES && Contains(l, north);
  }

  lemma NorthNamesLowerCase(north: string)
    requires north in NORTH_COUNTIES
    ensures IsLowerCase(north)
  {
  }

  // Example classifications.

  lemma SanFranciscoIsNorth()
    ensures DetermineRegion("San Francisco") == North
  {
    assert Lower("San Francisco") == "san francisco";
    assert OccursAt("san francisco", "san francisco", 0);
    assert NORTH_COUNTIES[5] == "san francisco";
    assert Contains("san francisco", "san francisco");
    assert ContainsAny(Lower("San Francisco"), NORTH_COUNTIES);
  }

  lemma MontereyIsCentral()
    ensures DetermineRegion("Monterey") == Central
  {
    var m := "monterey";
    assert Lower("Monterey") == m;
    MontereyNotNorth();
    assert OccursAt(m, "monterey", 0);
    assert CENTRAL_COUNTIES[2] == "monterey";
    assert Contains(m, "monterey");
  }

  lemma MontereyNotNorth()
    ensures !ContainsAny("monterey", NORTH_COUNTIES)
  {
    var m := "monterey";
    Excludes(m, "del norte", 'd');
    Excludes(m, "humboldt", 'h');
    Excludes(m, "mendocino", 'd');
    Excludes(m, "sonoma", 's');
    Excludes(m, "marin", 'a');
    Excludes(m, "san francisco", 's');
  }

  lemma LosAngelesIsSouth()
    ensures DetermineRegion("Los Angeles") == South
  {
    assert Lower("Los Angeles") == "los angeles";
    LosAngelesNotNorth();
    LosAngelesNotCentral();
  }

  lemma LosAngelesNotNorth()
    ensures !ContainsAny("los angeles", NORTH_COUNTIES)
  {
    var la := "los angeles";
    Excludes(la, "del norte", 'd');
    Excludes(la, "humboldt", 'h');
    Excludes(la, "mendocino", 'm');
    Excludes(la, "sonoma", 'm');
    Excludes(la, "marin", 'm');
    Excludes(la, "san francisco", 'f');
  }

  lemma LosAngelesNotCentral()
    ensures !ContainsAny("los angeles", CENTRAL_COUNTIES)
  {
    var la := "los angeles";
    Excludes(la, "san mateo", 'm');
    Excludes(la, "santa cruz", 'c');
    Excludes(la, "monterey", 'm');
    Excludes(la, "san luis obispo", 'u');
  }

  /** The `'Unknown'` county the transformer substitutes for a missing one falls to the south. */
  lemma UnknownIsSouth()
    ensures DetermineRegion("Unknown") == South
  {
    assert Lower("Unknown") == "unknown";
    UnknownNotNorth();
    UnknownNotCentral();
  }

  lemma UnknownNotNorth()
    ensures !ContainsAny("unknown", NORTH_COUNTIES)
  {
    var u := "unknown";
    Excludes(u, "del norte", 'd');
    Excludes(u, "humboldt", 'h');
    Excludes(u, "mendocino", 'm');
    Excludes(u, "sonoma", 's');
    Excludes(u, "marin", 'm');
    Excludes(u, "san francisco", 's');
  }

  lemma UnknownNotCentral()
    ensures !ContainsAny("unknown", CENTRAL_COUNTIES)
  {
    var u := "unknown";
    Excludes(u, "san mateo", 's');
    Excludes(u, "santa cruz", 's');
    Excludes(u, "monterey", 'm');
    Excludes(u, "san luis obispo", 's');
  }
}
