/** The hashtag scanner: finds `#tag` in HTML content, reading through markup inside a tag. */
module Hashtags {
  import opened Wrappers
  import opened Text

  predicate IsTagChar(c: char) {
    'a' <= c <= 'z' || 'A' <= c <= 'Z' || '0' <= c <= '9' || c == '_'
  }

  predicate IsBoundary(previous: Option<char>) {
    match previous
    case None => true
    case Some(c) => !IsTagChar(c) && c != '&' && c != '/'
  }

  /** How far an HTML tag reaches, counted behind its `<`: up to the first `>` outside quotes. */
  function TagEnd(s: string, quote: Option<char>): (n: Option<nat>)
    ensures n.Some? ==> 0 < n.value <= |s|
  {
    if s == "" then None
    else if quote.None? && s[0] == '>' then Some(1)
    else
      var quote' := if quote.Some? then (if s[0] == quote.value then None else quote)
                    else if s[0] == '"' || s[0] == '\'' then Some(s[0])
                    else None;
      match TagEnd(s[1..], quote')
      case None => None
      case Some(n) => Some(n + 1)
  }

  /** The length of the closed HTML tag `s` starts with, if it does. */
  function MarkupLength(s: string): (n: Option<nat>)
    ensures n.Some? ==> 1 < n.value <= |s|
  {
    if s == "" || s[0] != '<' || TagEnd(s[1..], None).None? then None
    else Some(1 + TagEnd(s[1..], None).value)
  }

  /** The tag read from the text behind a `#`, and how much of it was read. */
  function ReadTag(s: string): (r: (string, nat))
    ensures r.1 <= |s|
    decreases |s|
  {
    if s == "" then ("", 0)
    else if IsTagChar(s[0]) then
      var (tag, n) := ReadTag(s[1..]);
      ([LowerChar(s[0])] + tag, n + 1)
    else if MarkupLength(s).Some? then
      var (tag, n) := ReadTag(s[MarkupLength(s).value..]);
      (tag, n + MarkupLength(s).value)
    else ("", 0)
  }

  predicate IsHashAt(content: string, i: nat) {
    i < |content| && content[i] == '#' && IsBoundary(if i == 0 then None else Some(content[i - 1]))
  }

  /** The tags read from position `i` on, repetitions included. */
  function Scan(content: string, i: nat): seq<string>
    requires i <= |content|
    decreases |content| - i
  {
    if i == |content| then []
    else if !IsHashAt(content, i) then Scan(content, i + 1)
    else
      var (tag, n) := ReadTag(content[i + 1..]);
      (if tag == "" then [] else [tag]) + Scan(content, i + 1 + n)
  }

  /** Each value once, where it first occurs. */
  function FirstOccurrences(s: seq<string>): seq<string> {
    if s == [] then []
    else
      var init, last := s[..|s| - 1], s[|s| - 1];
      if last in init then FirstOccurrences(init) else FirstOccurrences(init) + [last]
  }

  function Extract(content: string): seq<string> {
    FirstOccurrences(Scan(content, 0))
  }

  method SkipHtmlTag(content: string, start: nat) returns (after: Option<nat>)
    requires start < |content|
    ensures after == if MarkupLength(content[start..]).Some? then Some(start + MarkupLength(content[start..]).value) else None
  {
    if content[start] != '<' {
      return None;
    }
    var quoted: Option<char> := None;
    var i := start + 1;
    ghost var rest := content[start..][1..];
    assert rest == content[start + 1..];
    while i < |content|
      invariant start + 1 <= i <= |content|
      invariant TagEnd(content[start + 1..], None).Some? <==> TagEnd(content[i..], quoted).Some?
      invariant TagEnd(content[i..], quoted).Some? ==>
        TagEnd(content[start + 1..], None).value == (i - start - 1) + TagEnd(content[i..], quoted).value
    {
      var ch := content[i];
      assert content[i..][0] == ch && content[i..][1..] == content[i + 1..];
      if quoted.Some? {
        if ch == quoted.value { quoted := None; }
      } else if ch == '"' || ch == '\'' {
        quoted := Some(ch);
      } else if ch == '>' {
        return Some(i + 1);
      }
      i := i + 1;
    }
    return None;
  }

  /** The tag behind `start` has been read up to `cursor`, and `tag` is what it had to say. */
  ghost predicate TagRead(content: string, start: nat, tag: string, cursor: nat) {
    && start <= cursor <= |content|
    && ReadTag(content[start..]).0 == tag + ReadTag(content[cursor..]).0
    && ReadTag(content[start..]).1 == cursor - start + ReadTag(content[cursor..]).1
  }

  lemma ReadChar(content: string, start: nat, tag: string, at: nat)
    requires TagRead(content, start, tag, at) && at < |content| && IsTagChar(content[at])
    ensures TagRead(content, start, tag + [LowerChar(content[at])], at + 1)
  {
    assert content[at..][1..] == content[at + 1..];
    var (rest, n) := ReadTag(content[at + 1..]);
    assert tag + ([LowerChar(content[at])] + rest) == (tag + [LowerChar(content[at])]) + rest;
  }

  lemma ReadMarkup(content: string, start: nat, tag: string, at: nat, after: nat)
    requires TagRead(content, start, tag, at) && at < |content| && MarkupLength(content[at..]) == Some(after - at)
    ensures at < after && TagRead(content, start, tag, after)
  {
    assert content[at..][after - at..] == content[after..];
  }

  /** The reading ends where neither a character of the tag nor closed markup follows. */
  lemma ReadStops(content: string, start: nat, tag: string, at: nat)
    requires TagRead(content, start, tag, at)
    requires at < |content| ==> !IsTagChar(content[at]) && MarkupLength(content[at..]).None?
    ensures ReadTag(content[start..]) == (tag, at - start)
  {
    assert tag + "" == tag;
    if at < |content| { assert content[at..][0] == content[at]; } else { assert content[at..] == ""; }
  }

  method ReadTagAt(content: string, start: nat) returns (tag: string, cursor: nat)
    requires start <= |content|
    ensures start <= cursor <= |content|
    ensures tag == ReadTag(content[start..]).0 && cursor - start == ReadTag(content[start..]).1
  {
    tag, cursor := "", start;
    while cursor < |content|
      invariant TagRead(content, start, tag, cursor)
      decreases |content| - cursor
    {
      var next := content[cursor];
      if IsTagChar(next) {
        ReadChar(content, start, tag, cursor);
        tag, cursor := tag + [LowerChar(next)], cursor + 1;
        continue;
      }
      if next == '<' {
        var after := SkipHtmlTag(content, cursor);
        if after.Some? {
          ReadMarkup(content, start, tag, cursor, after.value);
          cursor := after.value;
          continue;
        }
      }
      break;
    }
    ReadStops(content, start, tag, cursor);
  }

  /** Collecting with a seen set keeps first occurrences. */
  lemma CollectOne(scanned: seq<string>, tag: string)
    ensures tag in FirstOccurrences(scanned) <==> tag in scanned
    ensures FirstOccurrences(scanned + [tag])
         == if tag in scanned then FirstOccurrences(scanned) else FirstOccurrences(scanned) + [tag]
  {
    FirstOccurrencesOrdered(scanned);
    var more := scanned + [tag];
    assert more[..|more| - 1] == scanned && more[|more| - 1] == tag;
  }

  /** Pushes a non-empty tag that has not been seen. */
  method Collect(hashtags: seq<string>, tag: string, ghost scanned: seq<string>)
    returns (collected: seq<string>, ghost more: seq<string>)
    requires hashtags == FirstOccurrences(scanned)
    ensures more == (if tag == "" then [] else [tag]) && collected == FirstOccurrences(scanned + more)
  {
    more := if tag == "" then [] else [tag];
    collected := hashtags;
    if tag == "" {
      assert scanned + more == scanned;
    } else {
      CollectOne(scanned, tag);
      if tag !in hashtags {
        collected := hashtags + [tag];
      }
    }
  }

  /** The turn of the scan at a boundary `#`. */
  method CollectTagAt(content: string, i: nat, hashtags: seq<string>, ghost scanned: seq<string>)
    returns (collected: seq<string>, next: nat, ghost more: seq<string>)
    requires IsHashAt(content, i) && hashtags == FirstOccurrences(scanned)
    ensures i < next <= |content| && Scan(content, i) == more + Scan(content, next)
    ensures collected == FirstOccurrences(scanned + more)
  {
    var tag;
    tag, next := ReadTagAt(content, i + 1);
    collected, more := Collect(hashtags, tag, scanned);
    ScanStep(content, i, more, next);
  }

  /** `extract_hashtags_from_content`: every turn moves past at least one character. */
  method ExtractHashtags(content: string) returns (hashtags: seq<string>)
    ensures hashtags == Extract(content)
  {
    hashtags := [];
    ghost var scanned := [];
    var i := 0;
    while i < |content|
      invariant 0 <= i <= |content|
      invariant Scanned(content, i, scanned)
      invariant hashtags == FirstOccurrences(scanned)
      decreases |content| - i
    {
      ghost var at, more := i, [];
      if IsHashAt(content, i) {
        hashtags, i, more := CollectTagAt(content, i, hashtags, scanned);
      } else {
        ScanSkip(content, i);
        i := i + 1;
        assert scanned + [] == scanned;
      }
      ScannedMore(content, at, i, scanned, more);
      scanned := scanned + more;
    }
    assert scanned + [] == scanned;
  }

  /** Up to position `i` the scan has read `scanned`. */
  ghost predicate Scanned(content: string, i: nat, scanned: seq<string>)
    requires i <= |content|
  {
    Scan(content, 0) == scanned + Scan(content, i)
  }

  lemma ScannedMore(content: string, i: nat, next: nat, scanned: seq<string>, more: seq<string>)
    requires i <= |content| && next <= |content|
    requires Scanned(content, i, scanned) && Scan(content, i) == more + Scan(content, next)
    ensures Scanned(content, next, scanned + more)
  {
    assert scanned + (more + Scan(content, next)) == (scanned + more) + Scan(content, next);
  }

  lemma ScanSkip(content: string, i: nat)
    requires i < |content| && !IsHashAt(content, i)
    ensures Scan(content, i) == Scan(content, i + 1)
  {
  }

  lemma ScanStep(content: string, i: nat, more: seq<string>, cursor: nat)
    requires IsHashAt(content, i) && i < cursor && cursor - i - 1 == ReadTag(content[i + 1..]).1
    requires more == if ReadTag(content[i + 1..]).0 == "" then [] else [ReadTag(content[i + 1..]).0]
    ensures cursor <= |content| && Scan(content, i) == more + Scan(content, cursor)
  {
  }

  // ---------------------------------------------------------------------------
  // Where an HTML tag ends
  // ---------------------------------------------------------------------------

  /** An end found `n` characters further on. */
  function Further(end: Option<nat>, n: nat): Option<nat> {
    match end case None => None case Some(e) => Some(e + n)
  }

  /** Text without quotes and `>` does not end the tag. */
  lemma {:induction false} PlainIsPassed(a: string, rest: string)
    requires '"' !in a && '\'' !in a && '>' !in a
    ensures TagEnd(a + rest, None) == Further(TagEnd(rest, None), |a|)
  {
    if a == "" {
      assert a + rest == rest;
    } else {
      assert (a + rest)[0] == a[0] && (a + rest)[1..] == a[1..] + rest;
      PlainIsPassed(a[1..], rest);
    }
  }

  lemma {:induction false} InsideQuote(q: char, v: string, rest: string)
    requires q !in v
    ensures TagEnd(v + [q] + rest, Some(q)) == Further(TagEnd(rest, None), |v| + 1)
  {
    var s := v + [q] + rest;
    if v == "" {
      assert s[0] == q && s[1..] == rest;
    } else {
      assert s[0] == v[0] && s[1..] == v[1..] + [q] + rest;
      InsideQuote(q, v[1..], rest);
    }
  }

  /** Neither does anything inside quotes, a `>` or the other quote included. */
  lemma QuotedIsPassed(q: char, v: string, rest: string)
    requires (q == '"' || q == '\'') && q !in v
    ensures TagEnd([q] + v + [q] + rest, None) == Further(TagEnd(rest, None), |v| + 2)
  {
    var s := [q] + v + [q] + rest;
    assert s[0] == q && s[1..] == v + [q] + rest;
    InsideQuote(q, v, rest);
  }

  lemma {:induction false} OpenQuoteNeverEnds(q: char, v: string)
    requires q !in v
    ensures TagEnd(v, Some(q)) == None
  {
    if v != "" { OpenQuoteNeverEnds(q, v[1..]); }
  }

  /** A tag whose quote is never closed has no end. */
  lemma UnclosedQuote(a: string, q: char, v: string)
    requires '"' !in a && '\'' !in a && '>' !in a
    requires (q == '"' || q == '\'') && q !in v
    ensures TagEnd(a + ([q] + v), None) == None
  {
    PlainIsPassed(a, [q] + v);
    assert ([q] + v)[1..] == v;
    OpenQuoteNeverEnds(q, v);
  }

  /** The first `>` outside quotes ends the tag. */
  lemma FirstCloseEnds(a: string, rest: string)
    requires '"' !in a && '\'' !in a && '>' !in a
    ensures TagEnd(a + (">" + rest), None) == Some(|a| + 1)
    ensures MarkupLength("<" + (a + (">" + rest))) == Some(|a| + 2)
  {
    CloseEndsHere(rest);
    PlainIsPassed(a, ">" + rest);
    OpenedLength(a + (">" + rest));
  }

  lemma CloseEndsHere(rest: string)
    ensures TagEnd(">" + rest, None) == Some(1)
  {
    assert (">" + rest)[0] == '>';
  }

  lemma OpenedLength(s: string)
    ensures TagEnd(s, None).None? ==> MarkupLength("<" + s) == None
    ensures TagEnd(s, None).Some? ==> MarkupLength("<" + s) == Some(TagEnd(s, None).value + 1)
  {
    assert ("<" + s)[1..] == s;
  }

  /** Only a `<` opens one, and one without an end is no tag. */
  lemma NoMarkup(s: string)
    ensures MarkupLength(s).Some? <==> s != "" && s[0] == '<' && TagEnd(s[1..], None).Some?
    ensures '>' !in s ==> MarkupLength(s) == None
  {
    if '>' !in s && s != "" {
      assert forall c :: c in s[1..] ==> c in s;
      NoCloseNoEnd(s[1..], None);
    }
  }

  lemma {:induction false} NoCloseNoEnd(s: string, quote: Option<char>)
    requires '>' !in s
    ensures TagEnd(s, quote) == None
  {
    if s != "" {
      var quote' := if quote.Some? then (if s[0] == quote.value then None else quote)
                    else if s[0] == '"' || s[0] == '\'' then Some(s[0])
                    else None;
      assert s == [s[0]] + s[1..];
      NoCloseNoEnd(s[1..], quote');
    }
  }

  // ---------------------------------------------------------------------------
  // Which `#` counts
  // ---------------------------------------------------------------------------

  /** The ends of the ranges that make up a tag, and the characters next to them. */
  lemma TagAlphabet()
    ensures AllTagChars("azAZ09_")
    ensures forall c :: c in "`{@[/:^-.# &" ==> !IsTagChar(c)
  {
  }

  lemma {:induction false} WholeTagRead(tag: string)
    requires AllTagChars(tag)
    ensures ReadTag(tag) == (Lower(tag), |tag|)
  {
    if tag != "" {
      WholeTagRead(tag[1..]);
      assert Lower(tag) == [LowerChar(tag[0])] + Lower(tag[1..]);
    }
  }

  /** A `#` opens a tag unless an `&`, a `/` or a tag character stands right before it. */
  lemma BoundaryDecides(before: char, tag: string)
    requires before != '#' && tag != "" && AllTagChars(tag)
    ensures Extract([before, '#'] + tag) ==
      if before == '&' || before == '/' || IsTagChar(before) then [] else [Lower(tag)]
  {
    var content := [before, '#'] + tag;
    assert content[2..] == tag;
    WholeTagRead(tag);
    ScanSkip(content, 0);
    if IsHashAt(content, 1) {
      ScanStep(content, 1, [Lower(tag)], 2 + |tag|);
      OneTag(Lower(tag));
    } else {
      ScanSkip(content, 1);
      NoHashNoTag(content, 2);
    }
  }

  lemma OneTag(tag: string)
    ensures FirstOccurrences([tag] + []) == [tag]
  {
    assert [tag] + [] == [tag];
    CollectOne([], tag);
    assert [] + [tag] == [tag];
  }

  lemma {:induction false} NoHashNoTag(content: string, i: nat)
    requires i <= |content| && forall j :: i <= j < |content| ==> content[j] != '#'
    ensures Scan(content, i) == []
    decreases |content| - i
  {
    if i < |content| { NoHashNoTag(content, i + 1); }
  }

  // ---------------------------------------------------------------------------
  // What a tag is
  // ---------------------------------------------------------------------------

  /** The text with its closed HTML tags removed; a `<` that opens no closed tag stays. */
  function WithoutMarkup(s: string): string
    decreases |s|
  {
    if s == "" then ""
    else if MarkupLength(s).Some? then WithoutMarkup(s[MarkupLength(s).value..])
    else [s[0]] + WithoutMarkup(s[1..])
  }

  predicate AllTagChars(s: string) {
    forall i :: 0 <= i < |s| ==> IsTagChar(s[i])
  }

  /** `p` is the longest prefix of `s` made of hashtag characters. */
  predicate IsLongestTagPrefix(p: string, s: string) {
    p <= s && AllTagChars(p) && (|p| < |s| ==> !IsTagChar(s[|p|]))
  }

  /** The tag read behind a `#` is the lower-cased longest hashtag prefix of the text with closed HTML
      tags removed. */
  lemma {:induction false} TagIsLongestPrefix(s: string) returns (p: string)
    ensures IsLongestTagPrefix(p, WithoutMarkup(s)) && ReadTag(s).0 == Lower(p)
    ensures forall q :: IsLongestTagPrefix(q, WithoutMarkup(s)) ==> q == p
    decreases |s|
  {
    p := "";
    if s != "" {
      if IsTagChar(s[0]) {
        var rest := TagIsLongestPrefix(s[1..]);
        p := [s[0]] + rest;
        assert WithoutMarkup(s)[1..] == WithoutMarkup(s[1..]);
        assert ReadTag(s).0 == [LowerChar(s[0])] + Lower(rest);
      } else if MarkupLength(s).Some? {
        p := TagIsLongestPrefix(s[MarkupLength(s).value..]);
      } else {
        assert WithoutMarkup(s)[0] == s[0];
      }
    }
    forall q | IsLongestTagPrefix(q, WithoutMarkup(s)) ensures q == p {
      LongestIsUnique(p, q, WithoutMarkup(s));
    }
  }

  lemma LongestIsUnique(p: string, q: string, s: string)
    requires IsLongestTagPrefix(p, s) && IsLongestTagPrefix(q, s)
    ensures p == q
  {
    assert p == s[..|p|] && q == s[..|q|];
  }

  predicate IsTag(tag: string) {
    tag != "" && AllTagChars(tag) && Lower(tag) == tag
  }

  lemma {:induction false} ReadTagShape(s: string)
    ensures AllTagChars(ReadTag(s).0) && Lower(ReadTag(s).0) == ReadTag(s).0
    decreases |s|
  {
    if s != "" {
      if IsTagChar(s[0]) {
        ReadTagShape(s[1..]);
      } else if MarkupLength(s).Some? {
        ReadTagShape(s[MarkupLength(s).value..]);
      }
    }
  }

  lemma {:induction false} ScannedAreTags(content: string, i: nat)
    requires i <= |content|
    ensures forall x :: x in Scan(content, i) ==> IsTag(x) && '#' in content
    decreases |content| - i
  {
    if i < |content| {
      if IsHashAt(content, i) {
        ReadTagShape(content[i + 1..]);
        ScannedAreTags(content, i + 1 + ReadTag(content[i + 1..]).1);
      } else {
        ScannedAreTags(content, i + 1);
      }
    }
  }

  // ---------------------------------------------------------------------------
  // What the list is
  // ---------------------------------------------------------------------------

  function FirstIndex(s: seq<string>, x: string): nat
    requires x in s
  {
    if s[0] == x then 0 else 1 + FirstIndex(s[1..], x)
  }

  lemma {:induction false} FirstIndexOfPrefix(init: seq<string>, last: string, x: string)
    requires x in init || x == last
    ensures x in init ==> FirstIndex(init + [last], x) == FirstIndex(init, x) < |init|
    ensures x !in init ==> FirstIndex(init + [last], x) == |init|
  {
    if init != [] && init[0] != x {
      assert (init + [last])[1..] == init[1..] + [last];
      FirstIndexOfPrefix(init[1..], last, x);
    }
  }

  /** The list has no duplicates, misses nothing, and is in order of first occurrence. */
  lemma {:induction false} FirstOccurrencesOrdered(s: seq<string>)
    ensures var out := FirstOccurrences(s);
      && (forall x :: x in out <==> x in s)
      && (forall i, j :: 0 <= i < j < |out| ==> out[i] in s && out[j] in s && FirstIndex(s, out[i]) < FirstIndex(s, out[j]))
    decreases |s|
  {
    if s != [] {
      var init, last := s[..|s| - 1], s[|s| - 1];
      assert s == init + [last];
      FirstOccurrencesOrdered(init);
      var out := FirstOccurrences(s);
      forall i, j | 0 <= i < j < |out|
        ensures out[i] in s && out[j] in s && FirstIndex(s, out[i]) < FirstIndex(s, out[j])
      {
        FirstIndexOfPrefix(init, last, out[i]);
        FirstIndexOfPrefix(init, last, out[j]);
      }
    }
  }

  /** Extracted tags are non-empty, lower-case and pairwise different, and there are none without a `#`. */
  lemma ExtractedAreTags(content: string)
    ensures forall i :: 0 <= i < |Extract(content)| ==> IsTag(Extract(content)[i]) && '#' in content
    ensures forall i, j :: 0 <= i < j < |Extract(content)| ==> Extract(content)[i] != Extract(content)[j]
  {
    ScannedAreTags(content, 0);
    FirstOccurrencesOrdered(Scan(content, 0));
    forall i | 0 <= i < |Extract(content)| ensures IsTag(Extract(content)[i]) && '#' in content {
      assert Extract(content)[i] in Scan(content, 0);
    }
  }

  // ---------------------------------------------------------------------------
  // Which tags the scan misses
  // ---------------------------------------------------------------------------

  /** The tag behind every boundary `#`, taken position by position. */
  function EveryTag(content: string, i: nat): seq<string>
    requires i <= |content|
    decreases |content| - i
  {
    if i == |content| then [] else TagAt(content, i) + EveryTag(content, i + 1)
  }

  function TagAt(content: string, i: nat): seq<string>
    requires i < |content|
  {
    if IsHashAt(content, i) && ReadTag(content[i + 1..]).0 != "" then [ReadTag(content[i + 1..]).0] else []
  }

  /** No `#` from `i` up to `j` has a tag. */
  predicate NoTagIn(content: string, i: nat, j: nat) {
    forall k :: i <= k < j && k < |content| ==> TagAt(content, k) == []
  }

  /** No `#` with a tag of its own stands in the text that the tag of another is read through. */
  predicate HidesNone(content: string, i: nat)
    requires i <= |content|
    decreases |content| - i
  {
    if i == |content| then true
    else if !IsHashAt(content, i) then HidesNone(content, i + 1)
    else
      var next := i + 1 + ReadTag(content[i + 1..]).1;
      NoTagIn(content, i + 1, next) && HidesNone(content, next)
  }

  lemma EveryTagFrom(content: string, i: nat)
    requires i < |content|
    ensures EveryTag(content, i) == TagAt(content, i) + EveryTag(content, i + 1)
    ensures |EveryTag(content, i)| == |TagAt(content, i)| + |EveryTag(content, i + 1)|
    ensures TagAt(content, i) == [] ==> EveryTag(content, i) == EveryTag(content, i + 1)
  {
  }

  lemma {:induction false} SkippingKeepsCount(content: string, i: nat, j: nat)
    requires i <= j <= |content|
    ensures |EveryTag(content, i)| >= |EveryTag(content, j)|
    decreases j - i
  {
    if i < j {
      SkippingKeepsCount(content, i + 1, j);
      EveryTagFrom(content, i);
    }
  }

  lemma {:induction false} SkippingNone(content: string, i: nat, j: nat)
    requires i <= j <= |content| && NoTagIn(content, i, j)
    ensures EveryTag(content, i) == EveryTag(content, j)
    decreases j - i
  {
    if i < j {
      SkippingNone(content, i, j - 1);
      EveryTagFrom(content, j - 1);
    }
  }

  lemma SkippingOne(content: string, i: nat, k: nat, j: nat)
    requires i <= k < j <= |content| && TagAt(content, k) != []
    ensures |EveryTag(content, i)| > |EveryTag(content, j)|
  {
    SkippingKeepsCount(content, i, k);
    EveryTagFrom(content, k);
    SkippingKeepsCount(content, k + 1, j);
  }

  /** Skipping a stretch loses exactly the tags in it. */
  lemma Skipping(content: string, i: nat, j: nat)
    requires i <= j <= |content|
    ensures |EveryTag(content, i)| >= |EveryTag(content, j)|
    ensures NoTagIn(content, i, j) <==> |EveryTag(content, i)| == |EveryTag(content, j)|
    ensures NoTagIn(content, i, j) ==> EveryTag(content, i) == EveryTag(content, j)
  {
    SkippingKeepsCount(content, i, j);
    if NoTagIn(content, i, j) {
      SkippingNone(content, i, j);
    } else {
      var k :| i <= k < j && k < |content| && TagAt(content, k) != [];
      SkippingOne(content, i, k, j);
    }
  }

  lemma HidesNoneStep(content: string, i: nat, next: nat)
    requires IsHashAt(content, i) && next == i + 1 + ReadTag(content[i + 1..]).1 && next <= |content|
    ensures HidesNone(content, i) <==> NoTagIn(content, i + 1, next) && HidesNone(content, next)
  {
  }

  /** Nothing is hidden exactly when the reading has nothing between the two places. */
  lemma HidesNoneFrom(content: string, i: nat, next: nat)
    requires IsHashAt(content, i) && next == i + 1 + ReadTag(content[i + 1..]).1 && next <= |content|
    ensures HidesNone(content, i) <==>
      |EveryTag(content, i + 1)| == |EveryTag(content, next)| && HidesNone(content, next)
  {
    HidesNoneStep(content, i, next);
    Skipping(content, i + 1, next);
  }

  /** What is read from `i` on is what was scanned exactly when nothing is hidden. */
  predicate Complete(found: seq<string>, every: seq<string>, clean: bool) {
    |found| <= |every| && (found == every <==> clean)
  }

  lemma OneTagMore(head: seq<string>, found: seq<string>, every: seq<string>, rest: seq<string>, clean: bool)
    requires Complete(found, rest, clean) && |rest| <= |every| && (|every| == |rest| ==> every == rest)
    ensures Complete(head + found, head + every, |every| == |rest| && clean)
  {
    if head + found == head + every {
      assert (head + found)[|head|..] == found && (head + every)[|head|..] == every;
    }
  }

  lemma HashCompletes(content: string, i: nat, next: nat)
    requires IsHashAt(content, i) && next == i + 1 + ReadTag(content[i + 1..]).1 && next <= |content|
    requires Complete(Scan(content, next), EveryTag(content, next), HidesNone(content, next))
    ensures Complete(Scan(content, i), EveryTag(content, i), HidesNone(content, i))
  {
    HidesNoneFrom(content, i, next);
    Skipping(content, i + 1, next);
    OneTagMore(TagAt(content, i), Scan(content, next), EveryTag(content, i + 1), EveryTag(content, next), HidesNone(content, next));
    EveryTagFrom(content, i);
    ScanStep(content, i, TagAt(content, i), next);
  }

  lemma OtherCompletes(content: string, i: nat)
    requires i < |content| && !IsHashAt(content, i)
    requires Complete(Scan(content, i + 1), EveryTag(content, i + 1), HidesNone(content, i + 1))
    ensures Complete(Scan(content, i), EveryTag(content, i), HidesNone(content, i))
  {
    ScanSkip(content, i);
    EveryTagFrom(content, i);
  }

  /** The scan misses no tag exactly when none stands in the text that another is read through. */
  lemma {:induction false} ScanIsCompleteIff(content: string, i: nat)
    requires i <= |content|
    ensures |Scan(content, i)| <= |EveryTag(content, i)|
    ensures Scan(content, i) == EveryTag(content, i) <==> HidesNone(content, i)
    decreases |content| - i
  {
    if i < |content| {
      if IsHashAt(content, i) {
        var next := i + 1 + ReadTag(content[i + 1..]).1;
        ScanIsCompleteIff(content, next);
        HashCompletes(content, i, next);
      } else {
        ScanIsCompleteIff(content, i + 1);
        OtherCompletes(content, i);
      }
    }
  }

  lemma {:induction false} PlainRunHasNoHash(s: string)
    requires '<' !in s
    ensures forall j :: 0 <= j < ReadTag(s).1 ==> IsTagChar(s[j])
  {
    if s != "" && IsTagChar(s[0]) {
      assert s == [s[0]] + s[1..];
      PlainRunHasNoHash(s[1..]);
      forall j | 0 <= j < ReadTag(s).1 ensures IsTagChar(s[j]) {
        if j > 0 { assert s[j] == s[1..][j - 1]; }
      }
    }
  }

  /** So it misses none in content without markup. */
  lemma {:induction false} PlainScanIsComplete(content: string, i: nat)
    requires i <= |content| && '<' !in content
    ensures HidesNone(content, i) && Scan(content, i) == EveryTag(content, i)
    decreases |content| - i
  {
    ScanIsCompleteIff(content, i);
    if i < |content| {
      if IsHashAt(content, i) {
        var rest := content[i + 1..];
        var next := i + 1 + ReadTag(rest).1;
        PlainRunHasNoHash(rest);
        forall k | i + 1 <= k < next ensures !IsHashAt(content, k) { assert content[k] == rest[k - i - 1]; }
        HidesNoneStep(content, i, next);
        PlainScanIsComplete(content, next);
      } else {
        PlainScanIsComplete(content, i + 1);
      }
    }
  }

  /** With markup a `#` can be missed: one inside an HTML tag that a hashtag is read through. */
  lemma MarkupHidesHash()
    ensures var content := "#a< #d>"; IsHashAt(content, 4) && "d" in EveryTag(content, 0) && Scan(content, 0) == ["a"]
  {
    var content := "#a< #d>";
    assert content[1..] == "a< #d>" && content[5..] == "d>";
    ReadsThrough();
    ReadsInside();
    assert Scan(content, 7) == [];
    ScanStep(content, 0, ["a"], 7);
    EveryTagFinds(content, 0, 4);
  }

  lemma ReadsThrough()
    ensures ReadTag("a< #d>") == ("a", 6)
  {
    var markup := "< #d>";
    assert "a< #d>"[1..] == markup && markup[1..] == " #d>" && markup[5..] == "";
    assert " #d>"[1..] == "#d>" && "#d>"[1..] == "d>" && "d>"[1..] == ">";
    assert TagEnd("d>", None) == Some(2) && TagEnd("#d>", None) == Some(3) && TagEnd(" #d>", None) == Some(4);
    assert ReadTag(markup) == ("", 5);
    assert [LowerChar('a')] + "" == "a";
  }

  lemma ReadsInside()
    ensures ReadTag("d>").0 == "d"
  {
    assert "d>"[1..] == ">" && MarkupLength(">") == None && ReadTag(">") == ("", 0);
    assert [LowerChar('d')] + "" == "d";
  }

  lemma {:induction false} EveryTagFinds(content: string, i: nat, at: nat)
    requires i <= at < |content| && IsHashAt(content, at) && ReadTag(content[at + 1..]).0 != ""
    ensures ReadTag(content[at + 1..]).0 in EveryTag(content, i)
    decreases at - i
  {
    if i < at { EveryTagFinds(content, i + 1, at); }
  }
}
