/** The SQL text the sync writes: quoted literals, and the canonical form of a payload whose hash is
    its key. */
module SqlText {
  import opened Wrappers
  import opened Text

  const QUOTE := '\''

  /** Doubles every quote. */
  function EscapeLiteral(v: string): string {
    if v == "" then ""
    else (if v[0] == QUOTE then [QUOTE, QUOTE] else [v[0]]) + EscapeLiteral(v[1..])
  }

  /** How SQL reads on after the opening quote of a literal: the value, and the text behind its
      closing quote. */
  function ReadLiteral(s: string): Option<(string, string)> {
    if s == "" then None
    else if s[0] != QUOTE then
      match ReadLiteral(s[1..])
      case None => None
      case Some(r) => Some(([s[0]] + r.0, r.1))
    else if |s| > 1 && s[1] == QUOTE then
      match ReadLiteral(s[2..])
      case None => None
      case Some(r) => Some(([QUOTE] + r.0, r.1))
    else Some(("", s[1..]))
  }

  /** Whatever the value, the literal written for it is read back as that value and ends where it
      was meant to end. */
  lemma {:induction false} EscapedLiteralReadsBack(v: string, rest: string)
    requires rest == "" || rest[0] != QUOTE
    ensures ReadLiteral(EscapeLiteral(v) + [QUOTE] + rest) == Some((v, rest))
  {
    var s := EscapeLiteral(v) + [QUOTE] + rest;
    if v == "" {
      assert s == [QUOTE] + rest && s[1..] == rest;
    } else {
      EscapedLiteralReadsBack(v[1..], rest);
      var tail := EscapeLiteral(v[1..]) + [QUOTE] + rest;
      if v[0] == QUOTE {
        assert s == [QUOTE, QUOTE] + tail && s[2..] == tail;
      } else {
        assert s == [v[0]] + tail && s[1..] == tail;
      }
      assert v == [v[0]] + v[1..];
    }
  }

  // ---------------------------------------------------------------------------
  // The uploaded script
  // ---------------------------------------------------------------------------

  /** The values of a history row as its INSERT lists them, and what follows. */
  function Literals(values: seq<string>, rest: string): string {
    if values == [] then rest
    else Quoted(values[0], if |values| == 1 then rest else ", " + Literals(values[1..], rest))
  }

  function Quoted(v: string, rest: string): string {
    [QUOTE] + (EscapeLiteral(v) + [QUOTE] + rest)
  }

  /** How SQL reads `n` literals separated by commas. */
  function ReadLiterals(s: string, n: nat): Option<(seq<string>, string)>
    decreases n
  {
    if n == 0 then Some(([], s))
    else if s == "" || s[0] != QUOTE then None
    else
      match ReadLiteral(s[1..])
      case None => None
      case Some(r) =>
        if n == 1 then Some(([r.0], r.1))
        else if |r.1| < 2 || r.1[..2] != ", " then None
        else
          match ReadLiterals(r.1[2..], n - 1)
          case None => None
          case Some(more) => Some(([r.0] + more.0, more.1))
  }

  lemma QuotedReadsBack(v: string, rest: string)
    requires rest == "" || rest[0] != QUOTE
    ensures var s := Quoted(v, rest); s != "" && s[0] == QUOTE && ReadLiteral(s[1..]) == Some((v, rest))
  {
    var tail := EscapeLiteral(v) + [QUOTE] + rest;
    assert ([QUOTE] + tail)[1..] == tail;
    EscapedLiteralReadsBack(v, rest);
  }

  /** Key, name, time and mode of a sync are recorded as they are, whatever characters they hold. */
  lemma {:induction false} HistoryRowReadsBack(values: seq<string>, rest: string)
    requires values != [] && (rest == "" || rest[0] != QUOTE)
    ensures ReadLiterals(Literals(values, rest), |values|) == Some((values, rest))
    decreases |values|
  {
    if |values| == 1 {
      QuotedReadsBack(values[0], rest);
      assert [values[0]] == values;
    } else {
      var more := Literals(values[1..], rest);
      QuotedReadsBack(values[0], ", " + more);
      HistoryRowReadsBack(values[1..], rest);
      NextLiterals(Quoted(values[0], ", " + more), |values|, values[0], more, values[1..], rest);
      assert [values[0]] + values[1..] == values;
    }
  }

  lemma NextLiterals(s: string, n: nat, v: string, more: string, vs: seq<string>, rest: string)
    requires n > 1 && s != "" && s[0] == QUOTE && ReadLiteral(s[1..]) == Some((v, ", " + more))
    requires ReadLiterals(more, n - 1) == Some((vs, rest))
    ensures ReadLiterals(s, n) == Some(([v] + vs, rest))
  {
    assert (", " + more)[..2] == ", " && (", " + more)[2..] == more;
  }

  function EndLine(s: string): string {
    if s != "" && s[|s| - 1] == '\n' then s else s + "\n"
  }

  /** `wrap_sync_sql`: the script creates the history table, holds the payload unchanged up to a
      final line break, and ends by recording the row. The fixed parts of the two statements are
      parameters. */
  method WrapSyncSql(createTable: string, payload: string, insertHead: string, values: seq<string>, insertTail: string)
    returns (wrapped: string)
    requires values != [] && (insertTail == "" || insertTail[0] != QUOTE)
    ensures var body := if payload == "" then "" else EndLine(payload);
      var row := Literals(values, insertTail);
      && wrapped == EndLine(createTable) + body + insertHead + row
      && ReadLiterals(row, |values|) == Some((values, insertTail))
  {
    wrapped := createTable;
    if createTable == "" || createTable[|createTable| - 1] != '\n' {
      wrapped := wrapped + "\n";
    }
    wrapped := AppendPayload(wrapped, payload);
    var row := Literals(values, insertTail);
    wrapped := wrapped + insertHead + row;
    HistoryRowReadsBack(values, insertTail);
  }

  method AppendPayload(wrapped: string, payload: string) returns (longer: string)
    ensures longer == wrapped + if payload == "" then "" else EndLine(payload)
  {
    longer := wrapped + payload;
    if payload != "" && payload[|payload| - 1] != '\n' {
      longer := longer + "\n";
      assert longer == wrapped + (payload + "\n");
    }
  }

  // ---------------------------------------------------------------------------
  // The canonical form
  // ---------------------------------------------------------------------------

  function Lines(s: string): (ls: seq<string>)
    ensures |ls| > 0
  {
    if s == "" then [""]
    else if s[0] == '\n' then [""] + Lines(s[1..])
    else var rest := Lines(s[1..]); [[s[0]] + rest[0]] + rest[1..]
  }

  function TrimmedLines(ls: seq<string>): seq<string> {
    if ls == [] then []
    else (if Trim(ls[0]) == "" then [] else [Trim(ls[0])]) + TrimmedLines(ls[1..])
  }

  /** `canonicalize_sql_for_hash` */
  function Canonicalize(sql: string): string {
    Join(TrimmedLines(Lines(sql)), '\n')
  }

  predicate IsLine(l: string) {
    '\n' !in l
  }

  predicate CleanLines(ls: seq<string>) {
    forall i :: 0 <= i < |ls| ==> ls[i] != "" && Trimmed(ls[i]) && IsLine(ls[i])
  }

  lemma {:induction false} LinesAreLines(s: string)
    ensures forall i :: 0 <= i < |Lines(s)| ==> IsLine(Lines(s)[i])
  {
    if s != "" { LinesAreLines(s[1..]); }
  }

  lemma {:induction false} TrimmedLinesAreClean(ls: seq<string>)
    requires forall i :: 0 <= i < |ls| ==> IsLine(ls[i])
    ensures CleanLines(TrimmedLines(ls))
  {
    if ls != [] {
      TrimResult(ls[0]);
      TrimmedLinesAreClean(ls[1..]);
    }
  }

  lemma {:induction false} LinesOfOne(l: string)
    requires IsLine(l)
    ensures Lines(l) == [l]
  {
    if l != "" {
      assert l == [l[0]] + l[1..];
      LinesOfOne(l[1..]);
    }
  }

  lemma {:induction false} LinesOfTwo(l: string, rest: string)
    requires IsLine(l)
    ensures Lines(l + ['\n'] + rest) == [l] + Lines(rest)
  {
    var s := l + ['\n'] + rest;
    if l == "" {
      assert s[1..] == rest;
    } else {
      assert l == [l[0]] + l[1..];
      assert s[1..] == l[1..] + ['\n'] + rest;
      LinesOfTwo(l[1..], rest);
    }
  }

  lemma {:induction false} LinesOfJoin(ls: seq<string>)
    requires CleanLines(ls)
    ensures TrimmedLines(Lines(Join(ls, '\n'))) == ls
    decreases |ls|
  {
    if ls == [] {
      assert Lines("") == [""] && TrimmedLines([""]) == TrimmedLines([]);
    } else {
      TrimFixpoint(ls[0]);
      if |ls| == 1 {
        LinesOfOne(ls[0]);
        assert [ls[0]][1..] == [];
      } else {
        var rest := Join(ls[1..], '\n');
        LinesOfTwo(ls[0], rest);
        LinesOfJoin(ls[1..]);
        assert ([ls[0]] + Lines(rest))[1..] == Lines(rest);
      }
    }
  }

  /** The canonical form is canonical, so a payload and its canonical form have one key. */
  lemma CanonicalizeTwice(sql: string)
    ensures Canonicalize(Canonicalize(sql)) == Canonicalize(sql)
  {
    LinesAreLines(sql);
    TrimmedLinesAreClean(Lines(sql));
    LinesOfJoin(TrimmedLines(Lines(sql)));
  }

  lemma {:induction false} NoLinesIff(sql: string)
    ensures TrimmedLines(Lines(sql)) == [] <==> AllSpace(sql)
  {
    if sql == "" {
      assert TrimmedLines([""]) == TrimmedLines([]);
    } else {
      NoLinesIff(sql[1..]);
      var rest := Lines(sql[1..]);
      assert AllSpace(sql) <==> IsSpace(sql[0]) && AllSpace(sql[1..]);
      if sql[0] == '\n' {
        assert ([""] + rest)[1..] == rest;
      } else {
        var first := [sql[0]] + rest[0];
        assert ([first] + rest[1..])[1..] == rest[1..];
        TrimResult(first);
        TrimResult(rest[0]);
        assert AllSpace(first) <==> IsSpace(sql[0]) && AllSpace(rest[0]) by {
          assert forall i :: 0 <= i < |rest[0]| ==> first[i + 1] == rest[0][i];
        }
      }
    }
  }

  lemma {:induction false} JoinOfNothing(ls: seq<string>)
    requires CleanLines(ls)
    ensures Join(ls, '\n') == "" <==> ls == []
  {
  }

  /** The blank payloads, which the sync skips, are the ones whose canonical form is empty. */
  lemma BlankIff(sql: string)
    ensures Canonicalize(sql) == "" <==> AllSpace(sql)
  {
    LinesAreLines(sql);
    TrimmedLinesAreClean(Lines(sql));
    JoinOfNothing(TrimmedLines(Lines(sql)));
    NoLinesIff(sql);
  }

  // ---------------------------------------------------------------------------
  // What the canonical form keeps
  // ---------------------------------------------------------------------------

  function DenseLines(ls: seq<string>): string {
    if ls == [] then "" else Dense(ls[0]) + DenseLines(ls[1..])
  }

  lemma DenseHead(first: string, rest: seq<string>)
    ensures DenseLines([first] + rest) == Dense(first) + DenseLines(rest)
  {
    assert ([first] + rest)[1..] == rest;
  }

  lemma Regroup(a: string, b: string, c: string)
    ensures a + (b + c) == (a + b) + c
  {
  }

  lemma LongerFirstLine(c: char, first: string, rest: seq<string>)
    ensures DenseLines([[c] + first] + rest) == Dense([c]) + DenseLines([first] + rest)
  {
    DenseHead([c] + first, rest);
    DenseHead(first, rest);
    DenseConcat([c], first);
    Regroup(Dense([c]), Dense(first), DenseLines(rest));
  }

  lemma {:induction false} LinesKeepText(s: string)
    ensures DenseLines(Lines(s)) == Dense(s)
  {
    if s == "" {
      DenseHead("", []);
      assert [""] + [] == [""];
    } else {
      LinesKeepText(s[1..]);
      DenseConcat([s[0]], s[1..]);
      assert [s[0]] + s[1..] == s;
      if s[0] == '\n' {
        DenseHead("", Lines(s[1..]));
      } else {
        var rest := Lines(s[1..]);
        LongerFirstLine(s[0], rest[0], rest[1..]);
        assert [rest[0]] + rest[1..] == rest;
      }
    }
  }

  lemma {:induction false} TrimmingKeepsText(ls: seq<string>)
    ensures DenseLines(TrimmedLines(ls)) == DenseLines(ls)
  {
    if ls != [] {
      TrimmingKeepsText(ls[1..]);
      var before, after := TrimSplits(ls[0]);
      if Trim(ls[0]) == "" {
        assert TrimmedLines(ls) == TrimmedLines(ls[1..]);
      } else {
        DenseHead(Trim(ls[0]), TrimmedLines(ls[1..]));
      }
    }
  }

  lemma {:induction false} JoinKeepsText(ls: seq<string>)
    ensures Dense(Join(ls, '\n')) == DenseLines(ls)
  {
    if |ls| == 1 {
      assert ls[1..] == [];
    } else if |ls| > 1 {
      var rest := Join(ls[1..], '\n');
      JoinKeepsText(ls[1..]);
      DenseConcat(ls[0] + ['\n'], rest);
      DenseConcat(ls[0], ['\n']);
      DenseOfSpace(['\n']);
    }
  }

  /** The canonical form loses nothing but white space and line structure between statements. */
  lemma CanonicalKeepsText(sql: string)
    ensures Dense(Canonicalize(sql)) == Dense(sql)
    ensures TrimmedLines(Lines(Canonicalize(sql))) == TrimmedLines(Lines(sql))
  {
    LinesKeepText(sql);
    TrimmingKeepsText(Lines(sql));
    JoinKeepsText(TrimmedLines(Lines(sql)));
    LinesAreLines(sql);
    TrimmedLinesAreClean(Lines(sql));
    LinesOfJoin(TrimmedLines(Lines(sql)));
  }

  /** Two payloads are given one canonical form exactly when they have the same non-blank lines, up to
      white space at the ends; so they carry the same text. */
  lemma SameFormIff(a: string, b: string)
    ensures Canonicalize(a) == Canonicalize(b) <==> TrimmedLines(Lines(a)) == TrimmedLines(Lines(b))
    ensures Canonicalize(a) == Canonicalize(b) ==> Dense(a) == Dense(b)
  {
    CanonicalKeepsText(a);
    CanonicalKeepsText(b);
  }
}
