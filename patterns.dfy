/**
  The regular expressions the two adapters apply to page text, each written out
  as a function that decides whether the expression matches at one position and
  what the capture group the adapter reads holds there. At each position the
  function returns the match a backtracking regex engine finds first (greedy
  quantifiers stop at a fixed delimiter, lazy ones at the first acceptable
  one, and optional parts are tried before they are skipped). On top of that, `Exec`
  models `text.match(re)` (leftmost match) and `MatchAll` models
  `text.match(re)` with the `g` flag (successive non-overlapping matches).
*/
module Patterns {
  import opened Wrappers

  /** JavaScript's `\s`: WhiteSpace and LineTerminator code points. */
  predicate IsSpace(c: char) {
    c == '\t' || c == '\n' || c == '\U{000B}' || c == '\U{000C}' || c == '\r' || c == ' '
    || c == '\U{00A0}' || c == '\U{1680}' || ('\U{2000}' <= c <= '\U{200A}')
    || c == '\U{2028}' || c == '\U{2029}' || c == '\U{202F}' || c == '\U{205F}'
    || c == '\U{3000}' || c == '\U{FEFF}'
  }

  predicate IsDigit(c: char) {
    '0' <= c <= '9'
  }

  /** Case folding of the `i` flag restricted to ASCII letters, the only ones the patterns name. */
  function AsciiLower(c: char): char {
    if 'A' <= c <= 'Z' then (c as int + 32) as char else c
  }

  /** Does `lit` occur in `s` at position `i`? */
  predicate StartsAt(s: string, i: nat, lit: string) {
    i + |lit| <= |s| && s[i..i + |lit|] == lit
  }

  /** `FindAny` stops at a character of `stops`. */
  lemma FindAnyStop(s: string, i: nat, stops: string)
    requires i < |s| && s[i] in stops
    ensures FindAny(s, i, stops) == i
  {
  }

  /** `FindAny` steps over a character not in `stops`. */
  lemma FindAnyStep(s: string, i: nat, stops: string)
    requires i < |s| && s[i] !in stops
    ensures FindAny(s, i, stops) == FindAny(s, i + 1, stops)
  {
  }

  /** A text whose character at `i` differs from the first of `lit` does not hold `lit` there. */
  lemma NotStartsAt(s: string, i: nat, lit: string)
    requires i < |s| && lit != [] && s[i] != lit[0]
    ensures !StartsAt(s, i, lit)
  {
    if i + |lit| <= |s| {
      assert s[i..i + |lit|][0] == s[i];
    }
  }

  /** The same, ignoring the case of ASCII letters (`lit` is written in lower case). */
  predicate StartsAtIgnoringCase(s: string, i: nat, lit: string) {
    i + |lit| <= |s| && forall k :: 0 <= k < |lit| ==> AsciiLower(s[i + k]) == lit[k]
  }

  /** `String.prototype.includes`. */
  predicate Contains(s: string, t: string) {
    exists i :: 0 <= i <= |s| - |t| && StartsAt(s, i, t)
  }

  /** The end of the run of spaces starting at `i`. */
  function SkipSpaces(s: string, i: nat): (j: nat)
    requires i <= |s|
    ensures i <= j <= |s| && (j < |s| ==> !IsSpace(s[j]))
    decreases |s| - i
  {
    if i < |s| && IsSpace(s[i]) then SkipSpaces(s, i + 1) else i
  }

  /** `SkipSpaces` stops at once on a character that is not a space. */
  lemma SkipNoSpace(s: string, i: nat)
    requires i < |s| && !IsSpace(s[i])
    ensures SkipSpaces(s, i) == i
  {
  }

  /** The end of the run of digits starting at `i`. */
  function SkipDigits(s: string, i: nat): (j: nat)
    requires i <= |s|
    ensures i <= j <= |s| && (j < |s| ==> !IsDigit(s[j]))
    ensures forall k :: i <= k < j ==> IsDigit(s[k])
    decreases |s| - i
  {
    if i < |s| && IsDigit(s[i]) then SkipDigits(s, i + 1) else i
  }

  /** The first position at or after `i` holding one of `stops`, or `|s|` if there is none. */
  function FindAny(s: string, i: nat, stops: string): (j: nat)
    requires i <= |s|
    ensures i <= j <= |s| && (j < |s| ==> s[j] in stops)
    ensures forall k :: i <= k < j ==> s[k] !in stops
    decreases |s| - i
  {
    if i < |s| && s[i] !in stops then FindAny(s, i + 1, stops) else i
  }

  /** Where a match ends, and the capture group the adapter reads (None when the group did not take part). */
  datatype Hit = Hit(end: nat, group: Option<string>)

  /** A match found by a scan: where it starts and ends, and its group. */
  datatype Match = Match(start: nat, end: nat, group: Option<string>)

  /**
    The patterns of the adapters, each named after its shape (quotes are given
    as the string of characters the pattern accepts as a quote).
  */
  datatype Pattern =
      /** A key (the first of `keys` that leads to a match), optional spaces, `:`, optional spaces,
          then a non-empty value between two quote characters; the group is the value. */
    | KeyValue(keys: seq<string>, quotes: string)
      /** A key, optional spaces, `:`, optional spaces, an optional quote, digits, an optional
          quote; the group is the digits. */
    | DigitsValue(key: string)
      /** A quoted string (single or double quote) whose text contains `.m3u8`; the group is the text. */
    | QuotedManifest
      /** A non-empty quoted string (single or double quote); the group is the text. */
    | Quoted
      /** A key, optional spaces, `:`, optional spaces, `[`, and everything up to the first `]`;
          the group is what lies between the brackets. */
    | Block(key: string)
      /** Either `sources:` followed by `(` and everything up to the first `)` (this alternative
          has no group), or `Block("sources")`. */
    | SourcesList
      /** `sources:` followed by `{`, then the first `file:` key-value after it that has a `}`
          somewhere after it, then up to that `}`; the group is the file value. */
    | SourcesObject
      /** `{` and everything up to the first `}`; no group. */
    | BraceItem
      /** An `<iframe` tag (any case) with a `src=` attribute (any case) in quotes before the first
          `>`, then up to the first `>` after the value; the group is the value. */
    | IframeSrc
      /** `src="` followed by a non-empty value and `"`; the group is the value. */
    | SrcAttribute
      /** `url += '?t=` followed by a non-empty token and `'`; the group is the token. */
    | RedirectToken

  const BothQuotes: string := "\"'"

  /** A non-empty quoted text at `i` (opening and closing quote from `quotes`, none inside). */
  function QuotedAt(s: string, i: nat, quotes: string): (r: Option<Hit>)
    requires i <= |s|
    ensures r.Some? ==> i < r.value.end <= |s|
    ensures r.Some? ==> r.value.group.Some? && r.value.group.value != []
    ensures r.Some? ==> forall c :: c in r.value.group.value ==> c !in quotes
  {
    if i < |s| && s[i] in quotes then
      var e := FindAny(s, i + 1, quotes);
      if i + 1 < e < |s| then
        assert forall c :: c in s[i + 1..e] ==> c !in quotes;
        Some(Hit(e + 1, Some(s[i + 1..e])))
      else None
    else None
  }

  /** After a key ending at `j`: optional spaces, `:`, optional spaces; where the value starts. */
  function AfterColon(s: string, j: nat): (r: Option<nat>)
    requires j <= |s|
    ensures r.Some? ==> j < r.value <= |s|
  {
    var a := SkipSpaces(s, j);
    if a < |s| && s[a] == ':' then Some(SkipSpaces(s, a + 1)) else None
  }

  /** One key at `i`: the key, the colon, then the quoted value. */
  function KeyAt(s: string, i: nat, key: string, quotes: string): (r: Option<Hit>)
    requires i <= |s|
    ensures r.Some? ==> i < r.value.end <= |s|
    ensures r.Some? ==> r.value.group.Some? && r.value.group.value != []
    ensures r.Some? ==> forall c :: c in r.value.group.value ==> c !in quotes
  {
    if StartsAt(s, i, key) then
      match AfterColon(s, i + |key|)
      case None => None
      case Some(v) => QuotedAt(s, v, quotes)
    else None
  }

  function KeyValueAt(s: string, i: nat, keys: seq<string>, quotes: string): (r: Option<Hit>)
    requires i <= |s|
    ensures r.Some? ==> i < r.value.end <= |s|
    ensures r.Some? ==> r.value.group.Some? && r.value.group.value != []
    ensures r.Some? ==> forall c :: c in r.value.group.value ==> c !in quotes
    decreases |keys|
  {
    if keys == [] then None
    else
      var here := KeyAt(s, i, keys[0], quotes);
      if here.Some? then here else KeyValueAt(s, i, keys[1..], quotes)
  }

  function DigitsValueAt(s: string, i: nat, key: string): (r: Option<Hit>)
    requires i <= |s|
    ensures r.Some? ==> i < r.value.end <= |s|
    ensures r.Some? ==> r.value.group.Some? && r.value.group.value != []
    ensures r.Some? ==> forall c :: c in r.value.group.value ==> IsDigit(c)
  {
    if !StartsAt(s, i, key) then None
    else
      match AfterColon(s, i + |key|)
      case None => None
      case Some(v) =>
        var d := if v < |s| && s[v] in BothQuotes then v + 1 else v;
        var e := SkipDigits(s, d);
        if e == d then None
        else
          assert forall c :: c in s[d..e] ==> IsDigit(c);
          Some(Hit(if e < |s| && s[e] in BothQuotes then e + 1 else e, Some(s[d..e])))
  }

  /** `[`, then up to the first `]`, at `b`. */
  function BracketedAt(s: string, b: nat): (r: Option<Hit>)
    requires b <= |s|
    ensures r.Some? ==> b < r.value.end <= |s| && r.value.group.Some?
  {
    if b < |s| && s[b] == '[' then
      var e := FindAny(s, b + 1, "]");
      if e < |s| then Some(Hit(e + 1, Some(s[b + 1..e]))) else None
    else None
  }

  function BlockAt(s: string, i: nat, key: string): (r: Option<Hit>)
    requires i <= |s|
    ensures r.Some? ==> i < r.value.end <= |s| && r.value.group.Some?
  {
    if !StartsAt(s, i, key) then None
    else
      match AfterColon(s, i + |key|)
      case None => None
      case Some(v) => BracketedAt(s, v)
  }

  function SourcesListAt(s: string, i: nat): (r: Option<Hit>)
    requires i <= |s|
    ensures r.Some? ==> i < r.value.end <= |s|
  {
    var paren :=
      if !StartsAt(s, i, "sources") then None
      else
        match AfterColon(s, i + 7)
        case None => None
        case Some(v) =>
          if v < |s| && s[v] == '(' then
            var e := FindAny(s, v + 1, ")");
            if e < |s| then Some(Hit(e + 1, None)) else None
          else None;
    if paren.Some? then paren else BlockAt(s, i, "sources")
  }

  /** The first `file:` value at or after `p` that a `}` follows. */
  function FileThenBraceFrom(s: string, p: nat): (r: Option<Hit>)
    requires p <= |s|
    ensures r.Some? ==> p < r.value.end <= |s|
    ensures r.Some? ==> r.value.group.Some? && r.value.group.value != []
    decreases |s| - p
  {
    var here :=
      match KeyValueAt(s, p, ["file"], BothQuotes)
      case None => None
      case Some(h) =>
        var c := FindAny(s, h.end, "}");
        if c < |s| then Some(Hit(c + 1, h.group)) else None;
    if here.Some? then here
    else if p < |s| then FileThenBraceFrom(s, p + 1)
    else None
  }

  function SourcesObjectAt(s: string, i: nat): (r: Option<Hit>)
    requires i <= |s|
    ensures r.Some? ==> i < r.value.end <= |s|
    ensures r.Some? ==> r.value.group.Some? && r.value.group.value != []
  {
    if !StartsAt(s, i, "sources") then None
    else
      match AfterColon(s, i + 7)
      case None => None
      case Some(v) =>
        if v < |s| && s[v] == '{' then FileThenBraceFrom(s, v + 1) else None
  }

  function BraceItemAt(s: string, i: nat): (r: Option<Hit>)
    requires i <= |s|
    ensures r.Some? ==> i < r.value.end <= |s|
  {
    if i < |s| && s[i] == '{' then
      var e := FindAny(s, i + 1, "}");
      if e < |s| then Some(Hit(e + 1, None)) else None
    else None
  }

  /** Inside an `<iframe` tag, the first `src=` at or after `p`, before the tag's first `>`, that leads to a match. */
  function IframeSrcFrom(s: string, p: nat): (r: Option<Hit>)
    requires p <= |s|
    ensures r.Some? ==> p < r.value.end <= |s|
    ensures r.Some? ==> r.value.group.Some? && r.value.group.value != []
    decreases |s| - p
  {
    var here :=
      if StartsAtIgnoringCase(s, p, "src=") then
        match QuotedAt(s, p + 4, BothQuotes)
        case None => None
        case Some(h) =>
          var g := FindAny(s, h.end, ">");
          if g < |s| then Some(Hit(g + 1, h.group)) else None
      else None;
    if here.Some? then here
    else if p < |s| && s[p] != '>' then IframeSrcFrom(s, p + 1)
    else None
  }

  function IframeSrcAt(s: string, i: nat): (r: Option<Hit>)
    requires i <= |s|
    ensures r.Some? ==> i < r.value.end <= |s|
    ensures r.Some? ==> r.value.group.Some? && r.value.group.value != []
  {
    if StartsAtIgnoringCase(s, i, "<iframe") then IframeSrcFrom(s, i + 7) else None
  }

  /** A literal `lead`, then a non-empty value and the closing `quote`. */
  function LeadThenValueAt(s: string, i: nat, lead: string, quote: char): (r: Option<Hit>)
    requires i <= |s|
    ensures r.Some? ==> i < r.value.end <= |s|
    ensures r.Some? ==> r.value.group.Some? && r.value.group.value != [] && quote !in r.value.group.value
  {
    if StartsAt(s, i, lead) then
      var e := FindAny(s, i + |lead|, [quote]);
      if i + |lead| < e < |s| then Some(Hit(e + 1, Some(s[i + |lead|..e]))) else None
    else None
  }

  /** Does `p` match at position `i` of `s`, and how? */
  function MatchAt(p: Pattern, s: string, i: nat): (r: Option<Hit>)
    requires i <= |s|
    ensures r.Some? ==> i < r.value.end <= |s|
  {
    match p
    case KeyValue(keys, quotes) => KeyValueAt(s, i, keys, quotes)
    case DigitsValue(key) => DigitsValueAt(s, i, key)
    case QuotedManifest =>
      (match QuotedAt(s, i, BothQuotes)
       case Some(h) => if Contains(h.group.value, ".m3u8") then Some(h) else None
       case None => None)
    case Quoted => QuotedAt(s, i, BothQuotes)
    case Block(key) => BlockAt(s, i, key)
    case SourcesList => SourcesListAt(s, i)
    case SourcesObject => SourcesObjectAt(s, i)
    case BraceItem => BraceItemAt(s, i)
    case IframeSrc => IframeSrcAt(s, i)
    case SrcAttribute => LeadThenValueAt(s, i, "src=\"", '"')
    case RedirectToken => LeadThenValueAt(s, i, "url += '?t=", '\'')
  }

  /** The leftmost match of `p` at or after position `i`. */
  function FirstFrom(p: Pattern, s: string, i: nat): (r: Option<Match>)
    requires i <= |s|
    ensures r.Some? ==> i <= r.value.start < r.value.end <= |s|
    decreases |s| - i
  {
    match MatchAt(p, s, i)
    case Some(h) => Some(Match(i, h.end, h.group))
    case None => if i < |s| then FirstFrom(p, s, i + 1) else None
  }

  /** `FirstFrom` finds a match at its start, and no position before it (from `i` on) matches. */
  lemma {:induction false} FirstFromLeftmost(p: Pattern, s: string, i: nat)
    requires i <= |s|
    ensures var r := FirstFrom(p, s, i);
      r.Some? ==> MatchAt(p, s, r.value.start) == Some(Hit(r.value.end, r.value.group))
    ensures var r := FirstFrom(p, s, i);
      forall j :: i <= j <= |s| && (r.None? || j < r.value.start) ==> MatchAt(p, s, j).None?
    decreases |s| - i
  {
    if MatchAt(p, s, i).None? && i < |s| {
      FirstFromLeftmost(p, s, i + 1);
      var r := FirstFrom(p, s, i);
      assert r == FirstFrom(p, s, i + 1);
      forall j | i <= j <= |s| && (r.None? || j < r.value.start)
        ensures MatchAt(p, s, j).None?
      {
        if j > i {
          assert i + 1 <= j;
        }
      }
    }
  }

  /** `s.match(re)`: the leftmost match, or None (`null`). */
  function Exec(p: Pattern, s: string): Option<Match> {
    FirstFrom(p, s, 0)
  }

  /** `(s.match(re) || [])[1]` read for its truth: the group of the leftmost match when that is a non-empty string. */
  function Capture(p: Pattern, s: string): (r: Option<string>) {
    match Exec(p, s)
    case Some(m) => if m.group.Some? && m.group.value != [] then m.group else None
    case None => None
  }

  /** Successive non-overlapping matches from position `i`, each search starting where the last match ended. */
  function AllFrom(p: Pattern, s: string, i: nat): (r: seq<Match>)
    requires i <= |s|
    ensures forall k :: 0 <= k < |r| ==> i <= r[k].start < r[k].end <= |s|
    ensures forall k :: 0 < k < |r| ==> r[k - 1].end <= r[k].start
    decreases |s| - i
  {
    match FirstFrom(p, s, i)
    case None => []
    case Some(m) => [m] + AllFrom(p, s, m.end)
  }

  /**
    Each global match is a match at its start, and no position from `i` up to
    the first match (or up to the end, when there is none) matches.
  */
  lemma {:induction false} AllFromMatches(p: Pattern, s: string, i: nat)
    requires i <= |s|
    ensures var r := AllFrom(p, s, i);
      forall k :: 0 <= k < |r| ==> MatchAt(p, s, r[k].start) == Some(Hit(r[k].end, r[k].group))
    ensures var r := AllFrom(p, s, i);
      forall j :: i <= j < (if r == [] then |s| + 1 else r[0].start) ==> MatchAt(p, s, j).None?
    decreases |s| - i
  {
    FirstFromLeftmost(p, s, i);
    match FirstFrom(p, s, i)
    case None =>
    case Some(m) =>
      AllFromMatches(p, s, m.end);
      var r := AllFrom(p, s, i);
      assert r == [m] + AllFrom(p, s, m.end);
      assert r[0] == m;
      forall k | 0 <= k < |r|
        ensures MatchAt(p, s, r[k].start) == Some(Hit(r[k].end, r[k].group))
      {
        if k > 0 {
          assert r[k] == AllFrom(p, s, m.end)[k - 1];
        }
      }
  }

  /** No position in `[lo, hi)` starts a match. */
  predicate NoMatchIn(p: Pattern, s: string, lo: nat, hi: nat)
    requires hi <= |s| + 1
  {
    forall j :: lo <= j < hi ==> MatchAt(p, s, j).None?
  }

  /** Where the gap after the `k`-th global match ends: the next match's start, or past the end of the text. */
  function GapEnd(s: string, r: seq<Match>, k: nat): nat
    requires k < |r|
  {
    if k + 1 < |r| then r[k + 1].start else |s| + 1
  }

  /** The gaps of `[m] + rest` are the gap after `m` and the gaps of `rest`. */
  lemma GapsCons(p: Pattern, s: string, m: Match, rest: seq<Match>)
    requires forall k :: 0 <= k < |rest| ==> GapEnd(s, rest, k) <= |s| + 1 && NoMatchIn(p, s, rest[k].end, GapEnd(s, rest, k))
    requires GapEnd(s, [m] + rest, 0) <= |s| + 1 && NoMatchIn(p, s, m.end, GapEnd(s, [m] + rest, 0))
    ensures var r := [m] + rest;
      forall k :: 0 <= k < |r| ==> GapEnd(s, r, k) <= |s| + 1 && NoMatchIn(p, s, r[k].end, GapEnd(s, r, k))
  {
    var r := [m] + rest;
    forall k | 0 < k < |r|
      ensures GapEnd(s, r, k) == GapEnd(s, rest, k - 1) && r[k] == rest[k - 1]
    {
    }
  }

  /**
    Nothing is skipped between global matches either: no position from the end
    of one match up to the start of the next (or, after the last match, up to
    the end of the text) matches.
  */
  lemma {:induction false} AllFromGaps(p: Pattern, s: string, i: nat)
    requires i <= |s|
    ensures var r := AllFrom(p, s, i);
      forall k :: 0 <= k < |r| ==> GapEnd(s, r, k) <= |s| + 1 && NoMatchIn(p, s, r[k].end, GapEnd(s, r, k))
    decreases |s| - i
  {
    match FirstFrom(p, s, i)
    case None =>
    case Some(m) =>
      var rest := AllFrom(p, s, m.end);
      AllFromMatches(p, s, m.end);
      AllFromGaps(p, s, m.end);
      assert NoMatchIn(p, s, m.end, GapEnd(s, [m] + rest, 0));
      GapsCons(p, s, m, rest);
      assert AllFrom(p, s, i) == [m] + rest;
  }

  /** The `k`-th global match from the start of the text is a match at its start. */
  lemma AllFromMatchAt(p: Pattern, s: string, k: nat)
    requires k < |AllFrom(p, s, 0)|
    ensures var m := AllFrom(p, s, 0)[k];
      MatchAt(p, s, m.start) == Some(Hit(m.end, m.group))
  {
    AllFromMatches(p, s, 0);
  }

  // ---------------------------------------------------------------- matching inside a slice

  /** Searching a slice of `s` finds the same stop, as long as the stop lies within the slice. */
  lemma {:induction false} FindAnySlice(s: string, a: nat, b: nat, k: nat, stops: string)
    requires a <= k <= b <= |s|
    requires FindAny(s, k, stops) <= b
    ensures FindAny(s[a..b], k - a, stops) == FindAny(s, k, stops) - a
    decreases |s| - k
  {
    if k < b {
      assert s[a..b][k - a] == s[k];
      if s[k] !in stops {
        FindAnySlice(s, a, b, k + 1, stops);
      }
    }
  }

  /** Skipping spaces in a slice of `s` stops at the same place, as long as that place lies within the slice. */
  lemma {:induction false} SkipSpacesSlice(s: string, a: nat, b: nat, k: nat)
    requires a <= k <= b <= |s|
    requires SkipSpaces(s, k) <= b
    ensures SkipSpaces(s[a..b], k - a) == SkipSpaces(s, k) - a
    decreases |s| - k
  {
    if k < b {
      assert s[a..b][k - a] == s[k];
      if IsSpace(s[k]) {
        SkipSpacesSlice(s, a, b, k + 1);
      }
    }
  }

  /** A quoted text found in `s` is found, shifted, in any slice of `s` that holds it. */
  lemma QuotedAtSlice(s: string, a: nat, b: nat, i: nat, quotes: string)
    requires a <= i <= b <= |s|
    requires QuotedAt(s, i, quotes).Some? && QuotedAt(s, i, quotes).value.end <= b
    ensures QuotedAt(s[a..b], i - a, quotes) ==
      Some(Hit(QuotedAt(s, i, quotes).value.end - a, QuotedAt(s, i, quotes).value.group))
  {
    var t := s[a..b];
    var e := FindAny(s, i + 1, quotes);
    FindAnySlice(s, a, b, i + 1, quotes);
    assert t[i - a] == s[i];
    assert t[i - a + 1..e - a] == s[i + 1..e];
  }

  /** A literal at `i` in `s` is at the shifted position in any slice of `s` that holds it. */
  lemma StartsAtSlice(s: string, a: nat, b: nat, i: nat, lit: string)
    requires a <= i && i + |lit| <= b <= |s|
    requires StartsAt(s, i, lit)
    ensures StartsAt(s[a..b], i - a, lit)
  {
    var t := s[a..b];
    forall x | i <= x < i + |lit|
      ensures t[x - a] == s[x]
    {
    }
    assert t[i - a..i - a + |lit|] == s[i..i + |lit|];
  }

  /** `AfterColon` in one step: spaces up to a `:` at `c`, then spaces. */
  lemma AfterColonAt(s: string, j: nat, c: nat)
    requires j <= c < |s| && c == SkipSpaces(s, j) && s[c] == ':'
    ensures AfterColon(s, j) == Some(SkipSpaces(s, c + 1))
  {
  }

  /** The `: ` after a key is found, shifted, in any slice of `s` that holds it. */
  lemma AfterColonSlice(s: string, a: nat, b: nat, j: nat, jt: nat)
    requires a <= j <= b <= |s| && jt == j - a
    requires AfterColon(s, j).Some? && AfterColon(s, j).value <= b
    ensures AfterColon(s[a..b], jt) == Some(AfterColon(s, j).value - a)
  {
    var t := s[a..b];
    var c := SkipSpaces(s, j);
    SkipSpacesSlice(s, a, b, j);
    SkipSpacesSlice(s, a, b, c + 1);
    var ct := c - a;
    assert t[ct] == s[c];
    AfterColonAt(t, jt, ct);
  }

  /** A single-key `key: "value"` expression matches where its one key does. */
  lemma KeyValueAtOne(s: string, i: nat, key: string, quotes: string)
    requires i <= |s|
    ensures KeyValueAt(s, i, [key], quotes) == KeyAt(s, i, key, quotes)
  {
    assert [key][0] == key && [key][1..] == [];
  }

  /** What a `key: "value"` match at `i` is made of: the key, the colon, the quoted value at `v`. */
  lemma KeyAtParts(s: string, i: nat, key: string, quotes: string)
    requires i <= |s| && KeyAt(s, i, key, quotes).Some?
    ensures StartsAt(s, i, key) && AfterColon(s, i + |key|).Some?
    ensures KeyAt(s, i, key, quotes) == QuotedAt(s, AfterColon(s, i + |key|).value, quotes)
  {
  }

  /** The key, the colon and a quoted value at `v` make a `key: "value"` match. */
  lemma KeyAtOfParts(s: string, i: nat, key: string, quotes: string, v: nat)
    requires i <= |s| && StartsAt(s, i, key) && AfterColon(s, i + |key|) == Some(v)
    ensures KeyAt(s, i, key, quotes) == QuotedAt(s, v, quotes)
  {
  }

  /** The key and the colon of a `key: "value"` match in `s` are found, shifted, in any slice that holds them. */
  lemma KeyColonSlice(s: string, a: nat, b: nat, i: nat, key: string, v: nat, it: nat)
    requires a <= i && v <= b <= |s| && it == i - a
    requires StartsAt(s, i, key) && AfterColon(s, i + |key|) == Some(v)
    ensures StartsAt(s[a..b], it, key) && AfterColon(s[a..b], it + |key|) == Some(v - a)
  {
    StartsAtSlice(s, a, b, i, key);
    AfterColonSlice(s, a, b, i + |key|, it + |key|);
  }

  /** A `key: "value"` match in `s`, given by its parts, is found, shifted, in any slice of `s` that holds it. */
  lemma KeyAtSlice(s: string, a: nat, b: nat, i: nat, key: string, quotes: string, v: nat, h: Hit, it: nat, e: nat)
    requires a <= i <= b <= |s| && it == i - a
    requires StartsAt(s, i, key) && AfterColon(s, i + |key|) == Some(v)
    requires QuotedAt(s, v, quotes) == Some(h) && h.end <= b && e == h.end - a
    ensures KeyAt(s[a..b], it, key, quotes) == Some(Hit(e, h.group))
  {
    var t := s[a..b];
    KeyColonSlice(s, a, b, i, key, v, it);
    QuotedAtSlice(s, a, b, v, quotes);
    assert QuotedAt(t, v - a, quotes) == Some(Hit(e, h.group));
    KeyAtOfParts(t, it, key, quotes, v - a);
  }

  /** The text of a match. */
  function Text(s: string, m: Match): string
    requires m.start <= m.end <= |s|
  {
    s[m.start..m.end]
  }

  /** `s.match(re_g) || []`: the texts of all matches, in order. */
  function MatchAll(p: Pattern, s: string): (r: seq<string>)
    ensures |r| == |AllFrom(p, s, 0)|
    ensures forall k :: 0 <= k < |r| ==> r[k] == Text(s, AllFrom(p, s, 0)[k])
  {
    var ms := AllFrom(p, s, 0);
    seq(|ms|, k requires 0 <= k < |ms| => Text(s, ms[k]))
  }

  /** A match at the very start of a text with a non-empty group is what `Capture` reads. */
  lemma CaptureAtStart(p: Pattern, t: string, h: Hit)
    requires MatchAt(p, t, 0) == Some(h) && h.group.Some? && h.group.value != []
    ensures Capture(p, t) == h.group
  {
  }

  /** A single-key pattern matches where its one key does. */
  lemma KeyValueMatchAt(s: string, i: nat, key: string, quotes: string)
    requires i <= |s|
    ensures MatchAt(KeyValue([key], quotes), s, i) == KeyAt(s, i, key, quotes)
  {
    KeyValueAtOne(s, i, key, quotes);
  }

  /** A `key: "value"` match, cut out of `s`, matches at the start of its own text. */
  lemma KeyValueAtTextStart(key: string, quotes: string, s: string, m: Match)
    requires m.start <= m.end <= |s|
    requires KeyAt(s, m.start, key, quotes) == Some(Hit(m.end, m.group))
    ensures KeyAt(s[m.start..m.end], 0, key, quotes) == Some(Hit(m.end - m.start, m.group))
  {
    var h := Hit(m.end, m.group);
    KeyAtParts(s, m.start, key, quotes);
    var v := AfterColon(s, m.start + |key|).value;
    assert QuotedAt(s, v, quotes) == Some(h);
    KeyAtSlice(s, m.start, m.end, m.start, key, quotes, v, h, 0, m.end - m.start);
  }

  /** The text of one `key: "value"` match, matched again on its own, gives back that match's value. */
  lemma KeyValueTextRematch(key: string, quotes: string, s: string, m: Match)
    requires m.start <= m.end <= |s|
    requires MatchAt(KeyValue([key], quotes), s, m.start) == Some(Hit(m.end, m.group))
    ensures m.group.Some? && m.group.value != []
    ensures Capture(KeyValue([key], quotes), s[m.start..m.end]) == m.group
  {
    var t := s[m.start..m.end];
    KeyValueMatchAt(s, m.start, key, quotes);
    KeyValueAtTextStart(key, quotes, s, m);
    KeyValueMatchAt(t, 0, key, quotes);
    CaptureAtStart(KeyValue([key], quotes), t, Hit(m.end - m.start, m.group));
  }

  /**
    Each text of a global single-key `key: "value"` match, matched again with
    the same pattern, gives back the value of that match: the re-match never
    loses a global match.
  */
  lemma KeyValueRematch(key: string, quotes: string, s: string)
    ensures var p := KeyValue([key], quotes);
      var ms := AllFrom(p, s, 0);
      var r := MatchAll(p, s);
      forall k :: 0 <= k < |r| ==> ms[k].group.Some? && ms[k].group.value != [] && Capture(p, r[k]) == ms[k].group
  {
    var p := KeyValue([key], quotes);
    var ms := AllFrom(p, s, 0);
    forall k | 0 <= k < |ms|
      ensures ms[k].group.Some? && ms[k].group.value != [] && Capture(p, Text(s, ms[k])) == ms[k].group
    {
      AllFromMatchAt(p, s, k);
      KeyValueTextRematch(key, quotes, s, ms[k]);
    }
  }

  /** The text of one quoted-`.m3u8` match, matched again as a plain quoted string, gives back its quoted text. */
  lemma ManifestTextRematch(s: string, m: Match)
    requires m.start <= m.end <= |s|
    requires MatchAt(QuotedManifest, s, m.start) == Some(Hit(m.end, m.group))
    ensures m.group.Some? && Contains(m.group.value, ".m3u8")
    ensures Capture(Quoted, s[m.start..m.end]) == m.group
  {
    QuotedAtSlice(s, m.start, m.end, m.start, BothQuotes);
    CaptureAtStart(Quoted, s[m.start..m.end], Hit(m.end - m.start, m.group));
  }


  /**
    Each text of a global quoted-`.m3u8` match, matched again as a plain quoted
    string, gives back the quoted text of that match, which contains `.m3u8`.
  */
  lemma ManifestRematch(s: string)
    ensures var ms := AllFrom(QuotedManifest, s, 0);
      var r := MatchAll(QuotedManifest, s);
      forall k :: 0 <= k < |r| ==>
        ms[k].group.Some? && Contains(ms[k].group.value, ".m3u8") && Capture(Quoted, r[k]) == ms[k].group
  {
    var ms := AllFrom(QuotedManifest, s, 0);
    forall k | 0 <= k < |ms|
      ensures ms[k].group.Some? && Contains(ms[k].group.value, ".m3u8") && Capture(Quoted, Text(s, ms[k])) == ms[k].group
    {
      AllFromMatchAt(QuotedManifest, s, k);
      ManifestTextRematch(s, ms[k]);
    }
  }

}
