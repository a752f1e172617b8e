/** The build-time whitelist compiler: it reads the Markdown tables of the
    whitelist documents, keeps the first column of every table row, and
    writes the distinct signatures in sorted order, one per line. */
module WhitelistCompiler {
  import opened Wrappers
  import opened Text

  // ---------------------------------------------------------------------
  // Splitting a row into columns
  // ---------------------------------------------------------------------

  /** `s.Split(sep)`: the pieces between the separators, empty ones included. */
  function Split(s: string, sep: char): (r: seq<string>)
    ensures |r| >= 1
    ensures forall i :: 0 <= i < |r| ==> sep !in r[i]
    decreases |s|
  {
    var k := IndexOf(s, sep);
    if k == -1 then [s] else [s[..k]] + Split(s[k + 1..], sep)
  }

  /** `StringSplitOptions.RemoveEmptyEntries`. */
  function RemoveEmpty(parts: seq<string>): (r: seq<string>)
    ensures forall i :: 0 <= i < |r| ==> r[i] != [] && r[i] in parts
    ensures forall i :: 0 <= i < |parts| && parts[i] != [] ==> parts[i] in r
  {
    if parts == [] then []
    else if parts[0] == [] then RemoveEmpty(parts[1..])
    else [parts[0]] + RemoveEmpty(parts[1..])
  }

  /** `line.Split('|', StringSplitOptions.RemoveEmptyEntries)`. */
  function Columns(line: string): (r: seq<string>)
    ensures forall i :: 0 <= i < |r| ==> r[i] != [] && '|' !in r[i]
  {
    RemoveEmpty(Split(line, '|'))
  }

  /** A character absent from a string is absent from every slice of it. */
  lemma NotInSlice(s: string, lo: int, hi: int, c: char)
    requires 0 <= lo <= hi <= |s| && c !in s
    ensures c !in s[lo..hi]
  {
  }

  /** A character absent from a string is absent from what trimming leaves. */
  lemma TrimKeepsOut(s: string, c: char, drop: char -> bool)
    requires c !in s
    ensures c !in TrimEnd(TrimStart(s, drop), drop)
  {
    var t := TrimStart(s, drop);
    NotInSlice(s, |s| - |t|, |s|, c);
    assert s[|s| - |t|..|s|] == t;
    var u := TrimEnd(t, drop);
    NotInSlice(t, 0, |u|, c);
    assert t[0..|u|] == u;
  }

  lemma TrimCharKeepsOut(s: string, c: char, b: char)
    requires c !in s
    ensures c !in TrimChar(s, b)
  {
    TrimKeepsOut(s, c, x => x == b);
  }

  /** What `Trim(c)` leaves neither starts nor ends with `c`. */
  lemma TrimCharEnds(s: string, c: char)
    requires TrimChar(s, c) != []
    ensures TrimChar(s, c)[0] != c && TrimChar(s, c)[|TrimChar(s, c)| - 1] != c
  {
    var t := TrimStart(s, x => x == c);
    var u := TrimEnd(t, x => x == c);
    assert u == t[..|u|];
    assert u[0] == t[0];
  }

  /** `ExtractSignature`: the first non-empty column, trimmed of white space
      and then of backticks; nothing when there is no column or the result
      is blank. */
  function ExtractSignature(line: string): (r: Option<string>)
    ensures r.Some? ==> !IsBlank(r.value) && '|' !in r.value
    ensures r.Some? ==> r.value[0] != '`' && r.value[|r.value| - 1] != '`'
    ensures Columns(line) == [] ==> r.None?
  {
    var columns := Columns(line);
    if |columns| == 0 then None
    else
      var signature := TrimChar(Trim(columns[0]), '`');
      TrimKeepsOut(columns[0], '|', IsWhiteSpace);
      TrimCharKeepsOut(Trim(columns[0]), '|', '`');
      if IsBlank(signature) then None
      else
        TrimCharEnds(Trim(columns[0]), '`');
        Some(signature)
  }

  /** The row a whitelist document writes for `sig`: the signature in
      backticks in the first column, followed by any further columns. */
  function Row(sig: string, rest: string): string {
    "| `" + sig + "` |" + rest
  }

  /** `IndexOf` finds the one separator before which none occurs. */
  lemma IndexOfAt(s: string, c: char, k: int)
    requires 0 <= k < |s| && s[k] == c && c !in s[..k]
    ensures IndexOf(s, c) == k
  {
  }

  /** The first column of a row is the backticked signature with its
      surrounding spaces. */
  lemma FirstColumnOfRow(sig: string, rest: string)
    requires '|' !in sig
    ensures Columns(Row(sig, rest)) != [] && Columns(Row(sig, rest))[0] == " `" + sig + "` "
  {
    var line := Row(sig, rest);
    var t := line[1..];
    var col := " `" + sig + "` ";
    IndexOfAt(line, '|', 0);
    assert line[..0] == [];
    assert t == col + "|" + rest;
    assert t[..|col|] == col;
    IndexOfAt(t, '|', |col|);
    var parts := Split(t, '|');
    assert Split(line, '|') == [[]] + parts;
    assert parts[0] == col;
    assert RemoveEmpty([[]] + parts) == RemoveEmpty(parts);
  }

  /** Trimming white space leaves the backticks and what they enclose. */
  lemma TrimSpacedTicks(sig: string)
    ensures Trim(" `" + sig + "` ") == "`" + sig + "`"
  {
    var col := " `" + sig + "` ";
    var tc := "`" + sig + "` ";
    assert col[1..] == tc;
    assert TrimStart(col, IsWhiteSpace) == TrimStart(tc, IsWhiteSpace) == tc;
    var ticked := "`" + sig + "`";
    assert tc[..|tc| - 1] == ticked;
    assert TrimEnd(tc, IsWhiteSpace) == TrimEnd(ticked, IsWhiteSpace) == ticked;
  }

  /** Trimming backticks leaves a signature that neither starts nor ends
      with one. */
  lemma TrimTicks(sig: string)
    requires sig != [] && sig[0] != '`' && sig[|sig| - 1] != '`'
    ensures TrimChar("`" + sig + "`", '`') == sig
  {
    var ticked := "`" + sig + "`";
    var tail := sig + "`";
    assert ticked[1..] == tail;
    assert TrimStart(ticked, x => x == '`') == TrimStart(tail, x => x == '`') == tail;
    assert tail[..|tail| - 1] == sig;
    assert TrimEnd(tail, x => x == '`') == TrimEnd(sig, x => x == '`') == sig;
  }

  /** Reading a row back: the signature written into the first column of a
      row is exactly what `ExtractSignature` returns for that row. */
  lemma ExtractRow(sig: string, rest: string)
    requires !IsBlank(sig) && '|' !in sig && sig[0] != '`' && sig[|sig| - 1] != '`'
    ensures ExtractSignature(Row(sig, rest)) == Some(sig)
  {
    FirstColumnOfRow(sig, rest);
    TrimSpacedTicks(sig);
    TrimTicks(sig);
  }

  // ---------------------------------------------------------------------
  // The table state machine
  // ---------------------------------------------------------------------

  /** A header row (`| Signature`) or a row whose first column starts with
      a backtick: either opens a table. */
  predicate OpensTable(line: string) {
    StartsWith(line, "| Signature") || StartsWith(line, "| `")
  }

  /** A row that opens a table and holds a signature itself. */
  predicate IsSignatureRow(line: string) {
    StartsWith(line, "| `")
  }

  /** The `|---` / `| ---` separator under a header. */
  predicate IsSeparator(line: string) {
    StartsWith(line, "|---") || StartsWith(line, "| ---")
  }

  /** Any line of a Markdown table. */
  predicate IsTableLine(line: string) {
    StartsWith(line, "|")
  }

  /** The row kinds the parser tests for, and which of them exclude others. */
  lemma RowKinds(line: string)
    ensures OpensTable(line) || IsSeparator(line) ==> IsTableLine(line)
    ensures StartsWith(line, "| Signature") ==> !IsSignatureRow(line)
    ensures IsSeparator(line) ==> !OpensTable(line)
  {
    if StartsWith(line, "| Signature") { assert line[..11][2] == 'S'; }
    if IsSignatureRow(line) { assert line[..3][2] == '`'; }
    if StartsWith(line, "|---") { assert line[..4][1] == '-'; }
    if StartsWith(line, "| ---") { assert line[..5][2] == '-'; }
    if OpensTable(line) || IsSeparator(line) { assert line[..1] == "|"; }
  }

  /** The `inTable` flag after reading one more line. */
  function NextInTable(inTable: bool, line: string): (r: bool)
    ensures OpensTable(line) ==> r
    ensures IsSeparator(line) ==> r == inTable
    ensures !IsTableLine(line) ==> !r
    ensures IsTableLine(line) && !OpensTable(line) ==> r == inTable
  {
    RowKinds(line);
    if OpensTable(line) then true
    else if IsSeparator(line) then inTable
    else if !IsTableLine(line) then false
    else inTable
  }

  /** The signature a line yields, given whether a table is open before it. */
  function LineYield(inTable: bool, line: string): (r: Option<string>)
    ensures r.Some? ==> r == ExtractSignature(line) && IsTableLine(line)
    ensures IsSignatureRow(line) ==> r == ExtractSignature(line)
    ensures StartsWith(line, "| Signature") || IsSeparator(line) || !IsTableLine(line) ==> r.None?
    ensures IsTableLine(line) && !OpensTable(line) && !IsSeparator(line) ==>
              r == (if inTable then ExtractSignature(line) else None)
  {
    RowKinds(line);
    if OpensTable(line) then
      if IsSignatureRow(line) then ExtractSignature(line) else None
    else if IsSeparator(line) then None
    else if !IsTableLine(line) then None
    else if !inTable then None
    else ExtractSignature(line)
  }

  /** Whether a table is open after `lines`. */
  function InTable(lines: seq<string>): bool {
    if lines == [] then false
    else NextInTable(InTable(lines[..|lines| - 1]), lines[|lines| - 1])
  }

  /** The signatures `ParseMarkdownTable` yields for `lines`, in order. */
  function TableSignatures(lines: seq<string>): seq<string> {
    if lines == [] then []
    else
      var before := lines[..|lines| - 1];
      var last := lines[|lines| - 1];
      TableSignatures(before) + Emitted(LineYield(InTable(before), last))
  }

  /** The one signature a line yields, or none. */
  function Emitted(o: Option<string>): seq<string> {
    if o.Some? then [o.value] else []
  }

  /** Reading line `i` moves the state and the output by one step. */
  lemma TableStep(lines: seq<string>, i: int)
    requires 0 <= i < |lines|
    ensures InTable(lines[..i + 1]) == NextInTable(InTable(lines[..i]), lines[i])
    ensures TableSignatures(lines[..i + 1]) ==
              TableSignatures(lines[..i]) + Emitted(LineYield(InTable(lines[..i]), lines[i]))
  {
    assert lines[..i + 1][..i] == lines[..i];
  }

  /** `ParseMarkdownTable`: one pass over the lines of a document, keeping
      the `inTable` flag. */
  method ParseMarkdownTable(lines: seq<string>) returns (signatures: seq<string>)
    ensures signatures == TableSignatures(lines)
  {
    var inTable := false;
    signatures := [];
    for i := 0 to |lines|
      invariant inTable == InTable(lines[..i])
      invariant signatures == TableSignatures(lines[..i])
    {
      var line := lines[i];
      TableStep(lines, i);
      RowKinds(line);
      if OpensTable(line) {
        inTable := true;
        if IsSignatureRow(line) {
          var signature := ExtractSignature(line);
          if signature.Some? {
            signatures := signatures + [signature.value];
          }
        }
        continue;
      }
      if IsSeparator(line) {
        continue;
      }
      if !IsTableLine(line) {
        inTable := false;
        continue;
      }
      if !inTable {
        continue;
      }
      var sig := ExtractSignature(line);
      if sig.Some? {
        signatures := signatures + [sig.value];
      }
    }
    assert lines[..|lines|] == lines;
  }

  /** The table is open after `lines` exactly when some earlier line opened
      it and every line since is a table line. */
  lemma {:induction false} InTableSince(lines: seq<string>)
    ensures InTable(lines) <==>
              exists j :: 0 <= j < |lines| && OpensTable(lines[j]) &&
                          forall k :: j < k < |lines| ==> IsTableLine(lines[k])
  {
    if lines != [] {
      var n := |lines| - 1;
      var before := lines[..n];
      InTableSince(before);
      var last := lines[n];
      if InTable(lines) && !OpensTable(last) {
        assert InTable(before) && IsTableLine(last);
        var j :| 0 <= j < |before| && OpensTable(before[j]) &&
                 forall k :: j < k < |before| ==> IsTableLine(before[k]);
        assert forall k :: j < k < |lines| ==> IsTableLine(lines[k]) by {
          forall k | j < k < |lines| ensures IsTableLine(lines[k]) {
            if k < n { assert lines[k] == before[k]; }
          }
        }
      }
      if !InTable(lines) {
        forall j | 0 <= j < |lines| && OpensTable(lines[j])
          ensures exists k :: j < k < |lines| && !IsTableLine(lines[k])
        {
          if j == n {
            assert false;
          } else if !IsTableLine(last) {
            assert j < n < |lines|;
          } else {
            assert lines[j] == before[j];
            var k :| j < k < |before| && !IsTableLine(before[k]);
            assert lines[k] == before[k];
          }
        }
      }
    }
  }

  /** Line `i` of `lines` yields `s`, in the state the lines before it leave. */
  predicate YieldsAt(lines: seq<string>, i: int, s: string)
    requires 0 <= i < |lines|
  {
    LineYield(InTable(lines[..i]), lines[i]) == Some(s)
  }

  /** Whether a line yields depends only on the lines up to it. */
  lemma YieldsAtPrefix(lines: seq<string>, n: int, i: int, s: string)
    requires 0 <= i < n <= |lines|
    ensures YieldsAt(lines[..n], i, s) == YieldsAt(lines, i, s)
  {
    assert lines[..n][..i] == lines[..i];
  }

  /** Every yielded signature comes from some line. */
  lemma {:induction false} YieldedBySomeLine(lines: seq<string>, s: string)
    requires s in TableSignatures(lines)
    ensures exists i :: 0 <= i < |lines| && YieldsAt(lines, i, s)
  {
    var n := |lines| - 1;
    var before := lines[..n];
    if s in TableSignatures(before) {
      YieldedBySomeLine(before, s);
      var i :| 0 <= i < |before| && YieldsAt(before, i, s);
      YieldsAtPrefix(lines, n, i, s);
    } else {
      assert YieldsAt(lines, n, s);
    }
  }

  /** Reading more lines only appends to the output. */
  lemma {:induction false} OutputPrefix(lines: seq<string>, j: int)
    requires 0 <= j <= |lines|
    ensures TableSignatures(lines[..j]) <= TableSignatures(lines)
  {
    if j == |lines| {
      assert lines[..j] == lines;
    } else {
      var before := lines[..|lines| - 1];
      OutputPrefix(before, j);
      assert before[..j] == lines[..j];
    }
  }

  /** Every line that yields a signature contributes it to the output. */
  lemma YieldingLineCollected(lines: seq<string>, i: int, s: string)
    requires 0 <= i < |lines| && YieldsAt(lines, i, s)
    ensures s in TableSignatures(lines)
  {
    YieldedAfterLine(lines, i, s);
    OutputPrefix(lines, i + 1);
    PrefixMember(TableSignatures(lines[..i + 1]), TableSignatures(lines), s);
  }

  lemma PrefixMember(a: seq<string>, b: seq<string>, s: string)
    requires a <= b && s in a
    ensures s in b
  {
    var k :| 0 <= k < |a| && a[k] == s;
    assert b[k] == s;
  }

  /** A line that yields a signature appends it to the output so far. */
  lemma YieldedAfterLine(lines: seq<string>, i: int, s: string)
    requires 0 <= i < |lines| && YieldsAt(lines, i, s)
    ensures s in TableSignatures(lines[..i + 1])
  {
    TableStep(lines, i);
    assert Emitted(LineYield(InTable(lines[..i]), lines[i])) == [s];
  }

  /** A signature is yielded exactly when some line yields it in the table
      state the lines before it leave. */
  lemma TableSignaturesMembership(lines: seq<string>, s: string)
    ensures s in TableSignatures(lines) <==> exists i :: 0 <= i < |lines| && YieldsAt(lines, i, s)
  {
    if s in TableSignatures(lines) {
      YieldedBySomeLine(lines, s);
    }
    if exists i :: 0 <= i < |lines| && YieldsAt(lines, i, s) {
      var i :| 0 <= i < |lines| && YieldsAt(lines, i, s);
      YieldingLineCollected(lines, i, s);
    }
  }

  /** Every yielded signature is the non-blank first column of some table
      line, free of `|` and of backticks at its ends. */
  lemma SignaturesAreFirstColumns(lines: seq<string>, s: string)
    requires s in TableSignatures(lines)
    ensures exists i :: 0 <= i < |lines| && IsTableLine(lines[i]) && ExtractSignature(lines[i]) == Some(s)
    ensures !IsBlank(s) && '|' !in s && s[0] != '`' && s[|s| - 1] != '`'
  {
    YieldedBySomeLine(lines, s);
    var i :| 0 <= i < |lines| && YieldsAt(lines, i, s);
    var line := lines[i];
    assert LineYield(InTable(lines[..i]), line) == Some(s);
    assert IsTableLine(line) && ExtractSignature(line) == Some(s);
  }

  /** A signature row is collected wherever it stands; another table row is
      collected when a table opened on an earlier line and no non-table
      line has closed it since. */
  lemma RowsCollected(lines: seq<string>, i: int)
    requires 0 <= i < |lines| && ExtractSignature(lines[i]).Some?
    requires IsSignatureRow(lines[i]) ||
             (IsTableLine(lines[i]) && !OpensTable(lines[i]) && !IsSeparator(lines[i]) &&
              exists j :: 0 <= j < i && OpensTable(lines[j]) &&
                          forall k :: j < k < i ==> IsTableLine(lines[k]))
    ensures ExtractSignature(lines[i]).value in TableSignatures(lines)
  {
    if !IsSignatureRow(lines[i]) {
      OpenedEarlier(lines, i);
    }
    RowYields(lines, i);
    YieldingLineCollected(lines, i, ExtractSignature(lines[i]).value);
  }

  /** A table opened on an earlier line and not closed since is open. */
  lemma OpenedEarlier(lines: seq<string>, i: int)
    requires 0 <= i < |lines|
    requires exists j :: 0 <= j < i && OpensTable(lines[j]) && forall k :: j < k < i ==> IsTableLine(lines[k])
    ensures InTable(lines[..i])
  {
    var prefix := lines[..i];
    var j :| 0 <= j < i && OpensTable(lines[j]) && forall k :: j < k < i ==> IsTableLine(lines[k]);
    assert OpensTable(prefix[j]) && forall k :: j < k < |prefix| ==> IsTableLine(prefix[k]);
    InTableSince(prefix);
  }

  /** A signature row, or another table row inside an open table, yields
      its first column. */
  lemma RowYields(lines: seq<string>, i: int)
    requires 0 <= i < |lines| && ExtractSignature(lines[i]).Some?
    requires IsSignatureRow(lines[i]) ||
             (IsTableLine(lines[i]) && !OpensTable(lines[i]) && !IsSeparator(lines[i]) && InTable(lines[..i]))
    ensures YieldsAt(lines, i, ExtractSignature(lines[i]).value)
  {
  }

  // ---------------------------------------------------------------------
  // Distinct and sorted output
  // ---------------------------------------------------------------------

  /** The concatenation of a list of lists. */
  function Flatten(parts: seq<seq<string>>): seq<string> {
    if parts == [] then [] else Flatten(parts[..|parts| - 1]) + parts[|parts| - 1]
  }

  lemma {:induction false} FlattenAppend(a: seq<seq<string>>, b: seq<seq<string>>)
    ensures Flatten(a + b) == Flatten(a) + Flatten(b)
  {
    if b == [] {
      assert a + b == a;
    } else {
      var n := |b| - 1;
      var ab := a + b;
      assert ab[..|ab| - 1] == a + b[..n];
      assert ab[|ab| - 1] == b[n];
      FlattenAppend(a, b[..n]);
    }
  }

  /** The signatures of each document, documents in order. */
  function Parsed(documents: seq<seq<string>>): (r: seq<seq<string>>)
    ensures |r| == |documents|
    ensures forall i :: 0 <= i < |documents| ==> r[i] == TableSignatures(documents[i])
  {
    seq(|documents|, i requires 0 <= i < |documents| => TableSignatures(documents[i]))
  }

  /** Every signature of every document, documents in order (`SelectMany`). */
  function Gathered(documents: seq<seq<string>>): seq<string> {
    Flatten(Parsed(documents))
  }

  lemma GatheredAppend(a: seq<seq<string>>, b: seq<seq<string>>)
    ensures Gathered(a + b) == Gathered(a) + Gathered(b)
  {
    var p := Parsed(a + b);
    var q := Parsed(a) + Parsed(b);
    forall i | 0 <= i < |p| ensures p[i] == q[i] {
      if i < |a| {
        assert (a + b)[i] == a[i];
      } else {
        assert (a + b)[i] == b[i - |a|];
      }
    }
    assert p == q;
    FlattenAppend(Parsed(a), Parsed(b));
  }

  /** Strictly increasing in ordinal order: sorted and free of duplicates. */
  predicate StrictlySorted(s: seq<string>) {
    forall i, j :: 0 <= i < j < |s| ==> Less(s[i], s[j])
  }

  /** Inserts `x` into a strictly sorted list unless it is already there. */
  function Insert(s: seq<string>, x: string): (r: seq<string>)
    requires StrictlySorted(s)
    ensures StrictlySorted(r)
    ensures forall y :: y in r <==> y in s || y == x
  {
    if s == [] then [x]
    else if x == s[0] then s
    else if Less(x, s[0]) then
      assert forall j :: 0 < j < |s| ==> Less(x, s[j]) by {
        forall j | 0 < j < |s| ensures Less(x, s[j]) { LessTransitive(x, s[0], s[j]); }
      }
      [x] + s
    else
      LessTotal(x, s[0]);
      var rest := Insert(s[1..], x);
      assert forall y :: y in rest ==> Less(s[0], y);
      [s[0]] + rest
  }

  /** The distinct elements of `s` in ordinal order (`Distinct().OrderBy`). */
  function SortDistinct(s: seq<string>): (r: seq<string>)
    ensures StrictlySorted(r)
    ensures forall y :: y in r <==> y in s
  {
    if s == [] then []
    else
      var rest := SortDistinct(s[..|s| - 1]);
      assert s == s[..|s| - 1] + [s[|s| - 1]];
      Insert(rest, s[|s| - 1])
  }

  /** The compiled whitelist of a set of documents. */
  function Compiled(documents: seq<seq<string>>): (r: seq<string>)
    ensures StrictlySorted(r)
    ensures forall y :: y in r <==> y in Gathered(documents)
  {
    SortDistinct(Gathered(documents))
  }

  /** A strictly sorted list is determined by its elements. */
  lemma {:induction false} SortedUnique(a: seq<string>, b: seq<string>)
    requires StrictlySorted(a) && StrictlySorted(b)
    requires forall y :: y in a <==> y in b
    ensures a == b
  {
    assert |b| == 0 || b[0] in b;
    if a != [] {
      assert a[0] in b;
      var j :| 0 <= j < |b| && b[j] == a[0];
      assert b[0] in a;
      var i :| 0 <= i < |a| && a[i] == b[0];
      if a[0] != b[0] {
        assert Less(a[0], b[0]) && Less(b[0], a[0]);
        LessTransitive(a[0], b[0], a[0]);
        LessIrreflexive(a[0]);
      }
      forall y ensures y in a[1..] <==> y in b[1..] {
        if y in a[1..] {
          var k :| 1 <= k < |a| && a[k] == y;
          assert Less(a[0], y);
          LessIrreflexive(y);
          assert y in b && y != b[0];
          var m :| 0 <= m < |b| && b[m] == y;
          assert b[1..][m - 1] == y;
        }
        if y in b[1..] {
          var k :| 1 <= k < |b| && b[k] == y;
          assert Less(b[0], y);
          LessIrreflexive(y);
          assert y in a && y != a[0];
          var m :| 0 <= m < |a| && a[m] == y;
          assert a[1..][m - 1] == y;
        }
      }
      SortedUnique(a[1..], b[1..]);
      assert a == [a[0]] + a[1..] && b == [b[0]] + b[1..];
    }
  }

  /** The compiled list holds no signature twice. */
  lemma CompiledDistinct(documents: seq<seq<string>>, i: int, j: int)
    requires 0 <= i < j < |Compiled(documents)|
    ensures Compiled(documents)[i] != Compiled(documents)[j]
  {
    LessIrreflexive(Compiled(documents)[i]);
  }

  /** Any sorted, duplicate-free listing of the gathered signatures is the
      compiled whitelist: the output does not depend on how the query
      removes duplicates or sorts. */
  lemma CompiledIsCanonical(documents: seq<seq<string>>, listing: seq<string>)
    requires StrictlySorted(listing)
    requires forall y :: y in listing <==> y in Gathered(documents)
    ensures listing == Compiled(documents)
  {
    SortedUnique(listing, Compiled(documents));
  }

  /** The order in which the documents are enumerated does not change the
      compiled whitelist. */
  lemma CompiledOrderIndependent(a: seq<seq<string>>, b: seq<seq<string>>)
    ensures Compiled(a + b) == Compiled(b + a)
  {
    GatheredAppend(a, b);
    GatheredAppend(b, a);
    SortedUnique(Compiled(a + b), Compiled(b + a));
  }
}
