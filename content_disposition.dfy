/**
 * How `download_file` reads a file name out of a Content-Disposition header:
 * `re.search(r'filename="?([^"]+)"?', cd)` followed by
 * `urllib.parse.unquote` of the captured group.
 */
module ContentDisposition {
  import opened Wrappers

  /** The literal text the pattern starts with. */
  const FilenameKey: string := "filename="

  /** The longest prefix of `s` without a double quote: what the greedy `[^"]+` consumes. */
  function QuoteFreeRun(s: string): (run: string)
    ensures run <= s
    ensures '"' !in run
    ensures |run| < |s| ==> s[|run|] == '"'
    decreases |s|
  {
    if s == [] || s[0] == '"' then [] else [s[0]] + QuoteFreeRun(s[1..])
  }

  /**
   * The captured group when the pattern is tried at position `i`.  After the
   * literal, an opening quote is taken when present; the group then needs at
   * least one character that is not a quote.  When `"?` takes the quote and the
   * group finds nothing, backtracking to an empty `"?` leaves the group facing
   * that quote, so the attempt at `i` fails.  The trailing `"?` always succeeds.
   */
  function MatchAt(cd: string, i: nat): (group: Option<string>)
    requires i <= |cd|
    ensures group.Some? ==> group.value != "" && '"' !in group.value
  {
    var j := i + |FilenameKey|;
    if j <= |cd| && cd[i..j] == FilenameKey then
      var run := if j < |cd| && cd[j] == '"' then QuoteFreeRun(cd[j + 1..]) else QuoteFreeRun(cd[j..]);
      if run == [] then None else Some(run)
    else None
  }

  /** `re.search` from position `i` on: the first position where the pattern matches. */
  function SearchFrom(cd: string, i: nat): (group: Option<string>)
    requires i <= |cd|
    ensures group.Some? ==> group.value != "" && '"' !in group.value
    decreases |cd| - i
  {
    var here := MatchAt(cd, i);
    if here.Some? then here
    else if i == |cd| then None
    else SearchFrom(cd, i + 1)
  }

  /** `match[1]` of `re.search(r'filename="?([^"]+)"?', cd)`, or None when there is no match. */
  function FilenameParameter(cd: string): (group: Option<string>)
    ensures group.Some? ==> group.value != "" && '"' !in group.value
  {
    SearchFrom(cd, 0)
  }

  /** The search result is the group at the leftmost position where the pattern matches. */
  lemma {:induction false} SearchFromIsLeftmost(cd: string, k: nat)
    requires k <= |cd|
    ensures SearchFrom(cd, k).None? <==> forall i :: k <= i <= |cd| ==> MatchAt(cd, i).None?
    ensures SearchFrom(cd, k).Some? ==>
              exists i :: k <= i <= |cd| && MatchAt(cd, i) == SearchFrom(cd, k) &&
                          forall i' :: k <= i' < i ==> MatchAt(cd, i').None?
    decreases |cd| - k
  {
    if MatchAt(cd, k).None? && k < |cd| {
      SearchFromIsLeftmost(cd, k + 1);
      if SearchFrom(cd, k).Some? {
        var i :| k + 1 <= i <= |cd| && MatchAt(cd, i) == SearchFrom(cd, k + 1) &&
                 forall i' :: k + 1 <= i' < i ==> MatchAt(cd, i').None?;
        assert forall i' :: k <= i' < i ==> MatchAt(cd, i').None?;
      }
    }
  }

  /** The literal `filename=` starts at position `i` of `cd`. */
  predicate KeyAt(cd: string, i: nat) {
    i + |FilenameKey| <= |cd| && cd[i..i + |FilenameKey|] == FilenameKey
  }

  /** A header that never contains the literal `filename=` yields no file name. */
  lemma NoKeyNoFilename(cd: string)
    requires forall i: nat :: !KeyAt(cd, i)
    ensures FilenameParameter(cd) == None
  {
    forall i | 0 <= i <= |cd|
      ensures MatchAt(cd, i).None?
    {
      assert !KeyAt(cd, i);
    }
    SearchFromIsLeftmost(cd, 0);
  }

  /** The run stops exactly at the first quote. */
  lemma {:induction false} QuoteFreeRunStopsAtQuote(x: string, rest: string)
    requires '"' !in x
    ensures QuoteFreeRun(x + "\"" + rest) == x
    decreases |x|
  {
    if x != [] {
      QuoteFreeRunStopsAtQuote(x[1..], rest);
      assert (x + "\"" + rest)[1..] == x[1..] + "\"" + rest;
    }
  }

  /** A quoted name is captured without its quotes. */
  lemma QuotedFilename(name: string)
    requires name != "" && '"' !in name
    ensures FilenameParameter(FilenameKey + "\"" + name + "\"") == Some(name)
  {
    var cd := FilenameKey + "\"" + name + "\"";
    var j := |FilenameKey|;
    assert cd[0..j] == FilenameKey;
    assert cd[j] == '"';
    assert cd[j + 1..] == name + "\"";
    QuoteFreeRunStopsAtQuote(name, "");
    assert name + "\"" + "" == name + "\"";
  }

  /** An unquoted name is captured up to the next quote or the end, parameters after it included. */
  lemma UnquotedFilename(name: string)
    requires name != "" && '"' !in name
    ensures FilenameParameter(FilenameKey + name) == Some(name)
  {
    var cd := FilenameKey + name;
    var j := |FilenameKey|;
    assert cd[0..j] == FilenameKey;
    assert cd[j..] == name;
    var run := QuoteFreeRun(name);
    assert run == name;
  }

  /** An empty quoted name `filename=""` does not match at that position. */
  lemma EmptyQuotedFilename()
    ensures MatchAt(FilenameKey + "\"\"", 0) == None
  {
    var cd := FilenameKey + "\"\"";
    assert cd[0..|FilenameKey|] == FilenameKey;
    assert cd[|FilenameKey| + 1..] == "\"";
  }

  // ---------------------------------------------------------------------
  // Percent-decoding

  predicate IsHexDigit(c: char) {
    '0' <= c <= '9' || 'a' <= c <= 'f' || 'A' <= c <= 'F'
  }

  function HexValue(c: char): (v: nat)
    requires IsHexDigit(c)
    ensures v < 16
  {
    if '0' <= c <= '9' then c as nat - '0' as nat
    else if 'a' <= c <= 'f' then c as nat - 'a' as nat + 10
    else c as nat - 'A' as nat + 10
  }

  function HexDigit(v: nat): (c: char)
    requires v < 16
    ensures IsHexDigit(c) && HexValue(c) == v
  {
    if v < 10 then ('0' as nat + v) as char else ('A' as nat + v - 10) as char
  }

  /**
   * `urllib.parse.unquote`: every `%XX` with two hex digits becomes the
   * character with that code; everything else is copied.
   */
  function Unquote(s: string): (r: string)
    ensures |r| <= |s|
    ensures |s| > 0 ==> |r| > 0
    ensures '%' !in s ==> r == s
    decreases |s|
  {
    if s == [] then []
    else if |s| >= 3 && s[0] == '%' && IsHexDigit(s[1]) && IsHexDigit(s[2]) then
      [(16 * HexValue(s[1]) + HexValue(s[2])) as char] + Unquote(s[3..])
    else [s[0]] + Unquote(s[1..])
  }

  /** `%XX` for every character, as `urllib.parse.quote(s, safe="")` writes an ASCII string. */
  function PercentEncode(s: string): (r: string)
    requires forall i :: 0 <= i < |s| ==> s[i] as nat < 128
    ensures |r| == 3 * |s|
    decreases |s|
  {
    if s == [] then []
    else ['%', HexDigit(s[0] as nat / 16), HexDigit(s[0] as nat % 16)] + PercentEncode(s[1..])
  }

  /** Decoding undoes encoding. */
  lemma {:induction false} UnquotePercentEncode(s: string)
    requires forall i :: 0 <= i < |s| ==> s[i] as nat < 128
    ensures Unquote(PercentEncode(s)) == s
    decreases |s|
  {
    if s != [] {
      var e := PercentEncode(s);
      UnquotePercentEncode(s[1..]);
      assert e[3..] == PercentEncode(s[1..]);
      assert 16 * HexValue(e[1]) + HexValue(e[2]) == s[0] as nat;
      assert s == [s[0]] + s[1..];
    }
  }

  /** An encoded slash decodes to a real one: the decoded name can hold path separators. */
  lemma EncodedSlashDecodes(rest: string)
    requires '%' !in rest
    ensures Unquote("%2F" + rest) == "/" + rest
  {
    var s := "%2F" + rest;
    assert s[3..] == rest;
    assert 16 * HexValue('2') + HexValue('F') == 47;
  }
}
