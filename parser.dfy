/** The code-block language: `TABLE <name> = file(<ref>)` declarations, free-form
    intermediate content, then a trailing query that starts at the first line
    beginning with `select` (any letter case). */
module Grammar {
  import opened Wrappers
  import opened Strings

  datatype TableStatement = TableStatement(tableName: string, fileName: string)

  /** `queryPart` is `""` when the block has no query. */
  datatype ParsedLanguage = ParsedLanguage(tables: seq<TableStatement>, intermediateContent: string, queryPart: string)

  datatype ParseError = MalformedDeclaration(line: string)

  const TableKeyword: string := "table"
  const QueryKeyword: string := "select"
  const FileOpen: string := "file("

  predicate IsBlank(line: string) {
    AllWhitespace(line)
  }

  /** The line, once its indentation is removed, begins with the query keyword. */
  predicate IsQueryLine(line: string) {
    StartsWithIgnoringCase(TrimStart(line), QueryKeyword)
  }

  /** The first word of the line is the `TABLE` keyword, in any letter case. */
  predicate IsDeclarationLine(line: string) {
    var t := Trim(line);
    StartsWithIgnoringCase(t, TableKeyword) && (|t| == |TableKeyword| || IsWhitespace(t[|TableKeyword|]))
  }

  predicate IsNameChar(c: char) {
    !IsWhitespace(c) && c != '='
  }

  predicate ValidTableName(name: string) {
    |name| > 0 && forall i :: 0 <= i < |name| ==> IsNameChar(name[i])
  }

  /** Length of the longest prefix of `s` made of name characters. */
  function NameLength(s: string): (n: nat)
    ensures n <= |s|
    ensures n < |s| ==> !IsNameChar(s[n])
  {
    if |s| > 0 && IsNameChar(s[0]) then 1 + NameLength(s[1..]) else 0
  }

  lemma {:induction false} NameLengthSpec(s: string)
    ensures forall i :: 0 <= i < NameLength(s) ==> IsNameChar(s[i])
  {
    if |s| > 0 && IsNameChar(s[0]) {
      NameLengthSpec(s[1..]);
      forall i | 1 <= i < NameLength(s) ensures IsNameChar(s[i]) {
        assert s[i] == s[1..][i - 1];
      }
    }
  }

  /** One declaration line: `TABLE <name> = file(<ref>)`, surrounded by any whitespace. */
  function ParseDeclaration(line: string): (r: Option<TableStatement>)
    ensures r.Some? ==> IsDeclarationLine(line) && ValidTableName(r.value.tableName)
  {
    DeclarationOf(Trim(line))
  }

  /** The declaration held by an already trimmed line: the keyword, then whitespace. */
  function DeclarationOf(t: string): (r: Option<TableStatement>)
    ensures r.Some? ==> ValidTableName(r.value.tableName)
    ensures r.Some? ==> |t| > |TableKeyword| && StartsWithIgnoringCase(t, TableKeyword) && IsWhitespace(t[|TableKeyword|])
  {
    if |t| > |TableKeyword| && StartsWithIgnoringCase(t, TableKeyword) && IsWhitespace(t[|TableKeyword|])
    then NamedDeclaration(TrimStart(t[|TableKeyword|..]))
    else None
  }

  /** `<name> = file(<ref>)`: the name runs up to whitespace or `=`. */
  function NamedDeclaration(s: string): (r: Option<TableStatement>)
    ensures r.Some? ==> ValidTableName(r.value.tableName)
  {
    var n := NameLength(s);
    var afterName := TrimStart(s[n..]);
    if n == 0 || |afterName| == 0 || afterName[0] != '=' then None
    else
      NameLengthSpec(s);
      assert ValidTableName(s[..n]);
      FileReference(s[..n], TrimStart(afterName[1..]))
  }

  /** `file(<ref>)`, the last character being the closing parenthesis. */
  function FileReference(name: string, s: string): (r: Option<TableStatement>)
    ensures r.Some? ==> r.value.tableName == name
  {
    if |s| < |FileOpen| + 1 || s[..|FileOpen|] != FileOpen || s[|s| - 1] != ')' then None
    else Some(TableStatement(name, s[|FileOpen|..|s| - 1]))
  }

  /** How the declaration phase sees one line. */
  datatype LineKind = Blank | Declaration(statement: TableStatement) | Malformed | Content

  function Classify(line: string): LineKind {
    if IsBlank(line) then Blank
    else if IsDeclarationLine(line) then
      match ParseDeclaration(line)
      case Some(t) => Declaration(t)
      case None => Malformed
    else Content
  }

  lemma DeclarationKind(line: string, t: TableStatement)
    requires ParseDeclaration(line) == Some(t)
    ensures Classify(line) == Declaration(t)
  {
    DeclarationIsNotBlank(line);
  }

  lemma DeclarationIsNotBlank(line: string)
    requires IsDeclarationLine(line)
    ensures !IsBlank(line)
  {
  }

  /** The kind of every line. */
  function Kinds(lines: seq<string>): (ks: seq<LineKind>)
    ensures |ks| == |lines|
  {
    if |lines| == 0 then [] else [Classify(lines[0])] + Kinds(lines[1..])
  }

  lemma {:induction false} KindsAt(lines: seq<string>, i: nat)
    requires i < |lines|
    ensures Kinds(lines)[i] == Classify(lines[i])
  {
    if i > 0 {
      KindsAt(lines[1..], i - 1);
    }
  }

  lemma {:induction false} KindsAppend(a: seq<string>, b: seq<string>)
    ensures Kinds(a + b) == Kinds(a) + Kinds(b)
  {
    if |a| > 0 {
      assert (a + b)[1..] == a[1..] + b;
      KindsAppend(a[1..], b);
    } else {
      assert a + b == b;
    }
  }

  /** The declarations heading a block and the number of lines they span. */
  datatype Header = Header(tables: seq<TableStatement>, length: nat)

  predicate InHeader(k: LineKind) {
    k == Blank || k.Declaration?
  }

  /** The tables a run of header lines declares, in order. */
  function DeclaredTables(ks: seq<LineKind>): seq<TableStatement> {
    if |ks| == 0 then []
    else (if ks[0].Declaration? then [ks[0].statement] else []) + DeclaredTables(ks[1..])
  }

  /** Moves a result of `ScanHeader` on the lines after the first `n` to the whole block. */
  function Behind(ts: seq<TableStatement>, n: nat, r: Result<Header, nat>): Result<Header, nat> {
    match r
    case Success(h) => Success(Header(ts + h.tables, h.length + n))
    case Failure(i) => Failure(i + n)
  }

  /** Reads the declarations, skipping blank lines, up to the first other line;
      a malformed declaration is an error at its index. */
  function ScanHeader(ks: seq<LineKind>): (r: Result<Header, nat>)
    ensures r.Success? ==> r.value.length <= |ks|
    ensures r.Success? ==> forall i :: 0 <= i < r.value.length ==> InHeader(ks[i])
    ensures r.Success? && r.value.length < |ks| ==> ks[r.value.length] == Content
    ensures r.Failure? ==> r.error < |ks| && ks[r.error] == Malformed
    ensures r.Failure? ==> forall i :: 0 <= i < r.error ==> InHeader(ks[i])
  {
    if |ks| == 0 then Success(Header([], 0))
    else
      match ks[0]
      case Blank => Behind([], 1, ScanHeader(ks[1..]))
      case Declaration(t) => Behind([t], 1, ScanHeader(ks[1..]))
      case Malformed => Failure(0)
      case Content => Success(Header([], 0))
  }

  /** The tables of the header are exactly those its lines declare. */
  lemma {:induction false} ScanHeaderTables(ks: seq<LineKind>)
    requires ScanHeader(ks).Success?
    ensures ScanHeader(ks).value.tables == DeclaredTables(ks[..ScanHeader(ks).value.length])
  {
    if |ks| > 0 && InHeader(ks[0]) {
      ScanHeaderTables(ks[1..]);
      var n := ScanHeader(ks[1..]).value.length;
      assert ks[..n + 1][0] == ks[0];
      assert ks[..n + 1][1..] == ks[1..][..n];
    } else {
      assert ks[..0] == [];
    }
  }

  /** A run of header lines in front shifts the result by its length and its tables. */
  lemma {:induction false} ScanHeaderBehind(pre: seq<LineKind>, ks: seq<LineKind>)
    requires forall i :: 0 <= i < |pre| ==> InHeader(pre[i])
    ensures ScanHeader(pre + ks) == Behind(DeclaredTables(pre), |pre|, ScanHeader(ks))
  {
    if |pre| > 0 {
      assert (pre + ks)[0] == pre[0];
      assert (pre + ks)[1..] == pre[1..] + ks;
      ScanHeaderBehind(pre[1..], ks);
      var first := if pre[0].Declaration? then [pre[0].statement] else [];
      BehindTwice(first, DeclaredTables(pre[1..]), |pre| - 1, ScanHeader(ks));
    } else {
      assert pre + ks == ks;
      match ScanHeader(ks)
      case Success(h) => assert [] + h.tables == h.tables;
      case Failure(_) =>
    }
  }

  lemma BehindTwice(a: seq<TableStatement>, b: seq<TableStatement>, n: nat, r: Result<Header, nat>)
    ensures Behind(a, 1, Behind(b, n, r)) == Behind(a + b, n + 1, r)
  {
    match r
    case Success(h) => assert a + (b + h.tables) == (a + b) + h.tables;
    case Failure(_) =>
  }

  /** Index of the first query line, or `|lines|` when there is none. */
  function FirstQueryLine(lines: seq<string>): (k: nat)
    ensures k <= |lines|
  {
    if |lines| == 0 || IsQueryLine(lines[0]) then 0 else 1 + FirstQueryLine(lines[1..])
  }

  /** No line before the first query line is a query line. */
  lemma {:induction false} FirstQueryLineSpec(lines: seq<string>)
    ensures forall i :: 0 <= i < FirstQueryLine(lines) ==> !IsQueryLine(lines[i])
    ensures FirstQueryLine(lines) < |lines| ==> IsQueryLine(lines[FirstQueryLine(lines)])
  {
    if |lines| > 0 && !IsQueryLine(lines[0]) {
      FirstQueryLineSpec(lines[1..]);
      forall i | 1 <= i < FirstQueryLine(lines) ensures !IsQueryLine(lines[i]) {
        assert lines[i] == lines[1..][i - 1];
      }
    }
  }

  /** The parse of the lines that follow the header. */
  function Body(tables: seq<TableStatement>, rest: seq<string>): ParsedLanguage {
    var k := FirstQueryLine(rest);
    ParsedLanguage(tables, Trim(Join(rest[..k], "\n")), Trim(Join(rest[k..], "\n")))
  }

  function ParseLines(lines: seq<string>): Result<ParsedLanguage, ParseError> {
    Assemble(lines, ScanHeader(Kinds(lines)))
  }

  /** The error at the malformed line, or the header followed by the body. */
  function Assemble(lines: seq<string>, r: Result<Header, nat>): Result<ParsedLanguage, ParseError>
    requires r.Success? ==> r.value.length <= |lines|
    requires r.Failure? ==> r.error < |lines|
  {
    match r
    case Failure(i) => Failure(MalformedDeclaration(lines[i]))
    case Success(h) => Success(Body(h.tables, lines[h.length..]))
  }

  /** `parseLanguage(source)`. */
  function ParseLanguage(source: string): Result<ParsedLanguage, ParseError> {
    ParseLines(Split(source, '\n'))
  }

  // ---------------------------------------------------------------------------
  // Properties of the parser, as the parser's test file states them.

  /** A declaration line written in any letter case, with any indentation and
      trailing whitespace, yields its table name and file reference. */
  lemma DeclarationLineParses(keyword: string, indent: string, t: TableStatement, trailing: string)
    requires |keyword| == |TableKeyword| && StartsWithIgnoringCase(keyword, TableKeyword)
    requires AllWhitespace(indent) && AllWhitespace(trailing)
    requires ValidTableName(t.tableName)
    ensures ParseDeclaration(indent + keyword + " " + t.tableName + " = file(" + t.fileName + ")" + trailing) == Some(t)
  {
    var core := keyword + " " + t.tableName + " = file(" + t.fileName + ")";
    assert indent + keyword + " " + t.tableName + " = file(" + t.fileName + ")" + trailing == indent + core + trailing;
    TrimIgnoresPadding(indent, core, trailing);
    assert LowerChar(keyword[0]) == 't';
    assert core[0] == keyword[0];
    TrimUnchanged(core);
    CanonicalDeclaration(keyword, t);
  }

  lemma CanonicalDeclaration(keyword: string, t: TableStatement)
    requires |keyword| == |TableKeyword| && StartsWithIgnoringCase(keyword, TableKeyword)
    requires ValidTableName(t.tableName)
    ensures DeclarationOf(keyword + " " + t.tableName + " = file(" + t.fileName + ")") == Some(t)
  {
    var rest := " = file(" + t.fileName + ")";
    var tail := t.tableName + rest;
    assert tail == t.tableName + " = file(" + t.fileName + ")";
    assert keyword + " " + t.tableName + " = file(" + t.fileName + ")" == keyword + " " + tail;
    KeywordThenSpace(keyword, tail);
    NameNotIndented(t.tableName, rest);
    CanonicalNamedDeclaration(t);
  }

  /** A table name starts with no whitespace, so nothing is trimmed before it. */
  lemma NameNotIndented(name: string, rest: string)
    requires ValidTableName(name)
    ensures TrimStart(name + rest) == name + rest
  {
    var s := name + rest;
    assert s[0] == name[0];
    assert IsNameChar(name[0]);
    assert s[0..] == s;
  }

  lemma KeywordThenSpace(keyword: string, tail: string)
    requires |keyword| == |TableKeyword| && StartsWithIgnoringCase(keyword, TableKeyword)
    ensures DeclarationOf(keyword + " " + tail) == NamedDeclaration(TrimStart(tail))
  {
    var core := keyword + " " + tail;
    forall i | 0 <= i < |TableKeyword| ensures LowerChar(core[i]) == TableKeyword[i] {
      assert core[i] == keyword[i];
    }
    assert core[|TableKeyword|] == ' ';
    assert core[|TableKeyword|..] == " " + tail;
    TrimStartPadding(" ", tail);
  }

  lemma CanonicalNamedDeclaration(t: TableStatement)
    requires ValidTableName(t.tableName)
    ensures NamedDeclaration(t.tableName + " = file(" + t.fileName + ")") == Some(t)
  {
    var s := t.tableName + " = file(" + t.fileName + ")";
    var n := |t.tableName|;
    var fileRef := "file(" + t.fileName + ")";
    NameThenEquals(t);
    CanonicalFileReference(t);
    assert NamedDeclaration(s) == FileReference(s[..n], TrimStart(TrimStart(s[n..])[1..]));
  }

  lemma NameThenEquals(t: TableStatement)
    requires ValidTableName(t.tableName)
    ensures var s := t.tableName + " = file(" + t.fileName + ")";
      var n := |t.tableName|;
      && NameLength(s) == n && s[..n] == t.tableName
      && TrimStart(s[n..]) == "= file(" + t.fileName + ")"
      && TrimStart(TrimStart(s[n..])[1..]) == "file(" + t.fileName + ")"
  {
    var rest := " = file(" + t.fileName + ")";
    var s := t.tableName + rest;
    assert s == t.tableName + " = file(" + t.fileName + ")";
    NameLengthOf(t.tableName, rest);
    assert s[|t.tableName|..] == rest;
    EqualsThenFile(t.fileName);
  }

  lemma EqualsThenFile(f: string)
    ensures TrimStart(" = file(" + f + ")") == "= file(" + f + ")"
    ensures TrimStart(("= file(" + f + ")")[1..]) == "file(" + f + ")"
  {
    var fileRef := "file(" + f + ")";
    var eqPart := "= " + fileRef;
    assert " = file(" + f + ")" == " " + eqPart;
    assert "= file(" + f + ")" == eqPart;
    TrimStartPadding(" ", eqPart);
    assert eqPart[1..] == " " + fileRef;
    TrimStartPadding(" ", fileRef);
  }

  lemma CanonicalFileReference(t: TableStatement)
    ensures FileReference(t.tableName, "file(" + t.fileName + ")") == Some(t)
  {
    var fileRef := "file(" + t.fileName + ")";
    assert fileRef[..|FileOpen|] == FileOpen;
    assert fileRef[|FileOpen|..|fileRef| - 1] == t.fileName;
  }

  lemma {:induction false} NameLengthOf(name: string, rest: string)
    requires forall i :: 0 <= i < |name| ==> IsNameChar(name[i])
    requires rest == [] || !IsNameChar(rest[0])
    ensures NameLength(name + rest) == |name|
  {
    if |name| > 0 {
      assert (name + rest)[1..] == name[1..] + rest;
      NameLengthOf(name[1..], rest);
    } else {
      assert name + rest == rest;
    }
  }

  /** Consecutive declaration lines give their tables in declaration order,
      followed by whatever the remaining lines give. */
  lemma DeclarationsInOrder(decls: seq<string>, ts: seq<TableStatement>, rest: seq<string>)
    requires |decls| == |ts|
    requires forall i :: 0 <= i < |decls| ==> ParseDeclaration(decls[i]) == Some(ts[i])
    ensures ParseLines(decls + rest) == WithTables(ts, ParseLines(rest))
  {
    var pre := Kinds(decls);
    forall i | 0 <= i < |pre| ensures pre[i] == Declaration(ts[i]) {
      KindsAt(decls, i);
      DeclarationKind(decls[i], ts[i]);
    }
    DeclaredTablesOf(pre, ts);
    KindsAppend(decls, rest);
    ScanHeaderBehind(pre, Kinds(rest));
    HeaderBehindLines(decls, rest, ts);
  }

  lemma HeaderBehindLines(decls: seq<string>, rest: seq<string>, ts: seq<TableStatement>)
    requires ScanHeader(Kinds(decls + rest)) == Behind(ts, |decls|, ScanHeader(Kinds(rest)))
    ensures ParseLines(decls + rest) == WithTables(ts, ParseLines(rest))
  {
    var r := ScanHeader(Kinds(rest));
    AssembleBehind(decls, rest, ts, r);
  }

  /** Adds `ts` in front of the tables of a successful parse. */
  function WithTables(ts: seq<TableStatement>, r: Result<ParsedLanguage, ParseError>): Result<ParsedLanguage, ParseError> {
    match r
    case Success(p) => Success(p.(tables := ts + p.tables))
    case Failure(e) => Failure(e)
  }

  lemma AssembleBehind(decls: seq<string>, rest: seq<string>, ts: seq<TableStatement>, r: Result<Header, nat>)
    requires r.Success? ==> r.value.length <= |rest|
    requires r.Failure? ==> r.error < |rest|
    ensures Assemble(decls + rest, Behind(ts, |decls|, r)) == WithTables(ts, Assemble(rest, r))
  {
    var lines := decls + rest;
    match r
    case Success(h) =>
      assert lines[h.length + |decls|..] == rest[h.length..];
    case Failure(i) =>
      assert lines[i + |decls|] == rest[i];
  }

  lemma {:induction false} DeclaredTablesOf(ks: seq<LineKind>, ts: seq<TableStatement>)
    requires |ks| == |ts|
    requires forall i :: 0 <= i < |ks| ==> ks[i] == Declaration(ts[i])
    ensures DeclaredTables(ks) == ts
    ensures forall i :: 0 <= i < |ks| ==> InHeader(ks[i])
  {
    if |ks| > 0 {
      DeclaredTablesOf(ks[1..], ts[1..]);
      assert ts == [ts[0]] + ts[1..];
    }
  }

  /** Blank lines before a declaration or before the content are skipped. */
  lemma BlankLineSkipped(blank: string, rest: seq<string>)
    requires IsBlank(blank)
    ensures ParseLines([blank] + rest) == ParseLines(rest)
  {
    KindsAppend([blank], rest);
    assert Kinds([blank]) == [Blank];
    ScanHeaderBehind([Blank], Kinds(rest));
    HeaderBehindLines([blank], rest, []);
    match ParseLines(rest)
    case Success(p) => assert [] + p.tables == p.tables;
    case Failure(_) =>
  }

  lemma {:induction false} FirstQueryLineAfter(mid: seq<string>, post: seq<string>)
    requires forall i :: 0 <= i < |mid| ==> !IsQueryLine(mid[i])
    requires post == [] || IsQueryLine(post[0])
    ensures FirstQueryLine(mid + post) == |mid|
  {
    if |mid| > 0 {
      assert (mid + post)[1..] == mid[1..] + post;
      FirstQueryLineAfter(mid[1..], post);
    } else {
      assert mid + post == post;
    }
  }

  /** After the declarations, the lines before the first query line are the
      intermediate content and the query runs from that line to the end. */
  lemma ContentThenQuery(mid: seq<string>, post: seq<string>)
    requires mid + post == [] || Classify((mid + post)[0]) == Content
    requires forall i :: 0 <= i < |mid| ==> !IsQueryLine(mid[i])
    requires post == [] || IsQueryLine(post[0])
    ensures ParseLines(mid + post) == Success(ParsedLanguage([], Trim(Join(mid, "\n")), Trim(Join(post, "\n"))))
  {
    var rest := mid + post;
    if rest != [] {
      KindsAt(rest, 0);
    }
    assert ScanHeader(Kinds(rest)) == Success(Header([], 0));
    assert rest[0..] == rest;
    BodyAt(mid, post);
  }

  lemma BodyAt(mid: seq<string>, post: seq<string>)
    requires forall i :: 0 <= i < |mid| ==> !IsQueryLine(mid[i])
    requires post == [] || IsQueryLine(post[0])
    ensures Body([], mid + post) == ParsedLanguage([], Trim(Join(mid, "\n")), Trim(Join(post, "\n")))
  {
    FirstQueryLineAfter(mid, post);
    var rest := mid + post;
    assert rest[..|mid|] == mid && rest[|mid|..] == post;
  }

  lemma QueryLineIsContentBoundary(line: string)
    requires IsQueryLine(line)
    ensures Classify(line) == Content
  {
    var u := TrimStart(line);
    assert |u| >= |QueryKeyword| == 6;
    assert LowerChar(u[0]) == 's';
    assert u[0] == line[|line| - |u|];
    TrimEndKeeps(u, 0);
    var t := TrimEnd(u);
    assert t[0] == u[0];
  }

  /** A block that starts with its query has no tables and no intermediate
      content; the query is the whole (trimmed) input. */
  lemma QueryOnly(lines: seq<string>)
    requires |lines| > 0 && IsQueryLine(lines[0])
    ensures ParseLines(lines) == Success(ParsedLanguage([], "", Trim(Join(lines, "\n"))))
  {
    QueryLineIsContentBoundary(lines[0]);
    assert [] + lines == lines;
    ContentThenQuery([], lines);
  }

  /** The query keyword is recognised in any letter case and after any
      indentation; the query part keeps the original casing. */
  lemma QueryKeywordAnyCase(indent: string, keyword: string, text: string)
    requires AllWhitespace(indent)
    requires |keyword| == |QueryKeyword| && StartsWithIgnoringCase(keyword, QueryKeyword)
    requires '\n' !in indent + keyword + text
    ensures IsQueryLine(indent + keyword + text)
    ensures ParseLanguage(indent + keyword + text) == Success(ParsedLanguage([], "", Trim(keyword + text)))
  {
    QueryLineWithIndent(indent, keyword, text);
    SingleQueryLine(indent + keyword + text);
    TrimAfterIndent(indent, keyword, text);
  }

  lemma TrimAfterIndent(indent: string, keyword: string, text: string)
    requires AllWhitespace(indent)
    ensures Trim(indent + keyword + text) == Trim(keyword + text)
  {
    TrimIgnoresPadding(indent, keyword + text, []);
    assert indent + (keyword + text) + [] == indent + keyword + text;
  }

  lemma SingleQueryLine(line: string)
    requires IsQueryLine(line) && '\n' !in line
    ensures ParseLanguage(line) == Success(ParsedLanguage([], "", Trim(line)))
  {
    SplitNoSeparator(line, '\n');
    QueryOnly([line]);
  }

  lemma QueryLineWithIndent(indent: string, keyword: string, text: string)
    requires AllWhitespace(indent)
    requires |keyword| == |QueryKeyword| && StartsWithIgnoringCase(keyword, QueryKeyword)
    ensures IsQueryLine(indent + keyword + text)
  {
    assert indent + keyword + text == indent + (keyword + text);
    TrimStartPadding(indent, keyword + text);
    assert LowerChar(keyword[0]) == 's';
    assert TrimStart(keyword + text) == keyword + text;
    assert (keyword + text)[..|QueryKeyword|] == keyword;
  }

  lemma TrimKeepsKeyword(keyword: string, text: string)
    requires |keyword| == |QueryKeyword| && StartsWithIgnoringCase(keyword, QueryKeyword)
    ensures |Trim(keyword + text)| >= |keyword| && Trim(keyword + text)[..|keyword|] == keyword
  {
    var u := keyword + text;
    assert LowerChar(keyword[0]) == 's';
    assert TrimStart(u) == u;
    assert LowerChar(keyword[|keyword| - 1]) == 't';
    TrimEndKeeps(u, |keyword| - 1);
  }

  lemma {:induction false} JoinAppend(a: seq<string>, b: seq<string>, sep: string)
    requires |a| > 0 && |b| > 0
    ensures Join(a + b, sep) == Join(a, sep) + sep + Join(b, sep)
  {
    if |a| == 1 {
      assert (a + b)[1..] == b;
    } else {
      assert (a + b)[1..] == a[1..] + b;
      JoinAppend(a[1..], b, sep);
    }
  }

  lemma {:induction false} JoinBlankLines(lines: seq<string>, sep: string)
    requires AllWhitespace(sep)
    requires forall i :: 0 <= i < |lines| ==> IsBlank(lines[i])
    ensures AllWhitespace(Join(lines, sep))
  {
    if |lines| > 1 {
      JoinBlankLines(lines[1..], sep);
      assert IsBlank(lines[0]);
      AllWhitespaceConcat(lines[0], sep);
      AllWhitespaceConcat(lines[0] + sep, Join(lines[1..], sep));
    }
  }

  lemma AllWhitespaceConcat(a: string, b: string)
    requires AllWhitespace(a) && AllWhitespace(b)
    ensures AllWhitespace(a + b)
  {
    forall i | 0 <= i < |a + b| ensures IsWhitespace((a + b)[i]) {
      if i >= |a| { assert (a + b)[i] == b[i - |a|]; }
    }
  }

  /** Whitespace lines joined in front of non-empty `rest` add only whitespace before it. */
  lemma JoinBlanksBefore(before: seq<string>, rest: seq<string>, sep: string) returns (pad: string)
    requires AllWhitespace(sep)
    requires forall i :: 0 <= i < |before| ==> IsBlank(before[i])
    requires |rest| > 0
    ensures Join(before + rest, sep) == pad + Join(rest, sep)
    ensures AllWhitespace(pad)
  {
    if before == [] {
      assert before + rest == rest;
      pad := [];
    } else {
      JoinBlankLines(before, sep);
      AllWhitespaceConcat(Join(before, sep), sep);
      JoinAppend(before, rest, sep);
      pad := Join(before, sep) + sep;
    }
  }

  /** Whitespace lines joined after non-empty `body` add only whitespace after it. */
  lemma JoinBlanksAfter(body: seq<string>, after: seq<string>, sep: string) returns (pad: string)
    requires AllWhitespace(sep)
    requires forall i :: 0 <= i < |after| ==> IsBlank(after[i])
    requires |body| > 0
    ensures Join(body + after, sep) == Join(body, sep) + pad
    ensures AllWhitespace(pad)
  {
    if after == [] {
      assert body + after == body;
      pad := [];
    } else {
      JoinBlankLines(after, sep);
      AllWhitespaceConcat(sep, Join(after, sep));
      JoinAppend(body, after, sep);
      pad := sep + Join(after, sep);
    }
  }

  lemma TrimPadded(x: string, left: string, mid: string, right: string)
    requires AllWhitespace(left) && AllWhitespace(right)
    requires x == left + mid + right
    ensures Trim(x) == Trim(mid)
  {
    TrimIgnoresPadding(left, mid, right);
  }

  lemma BlankLinesAroundDroppedWith(before: seq<string>, body: seq<string>, after: seq<string>, sep: string)
    requires AllWhitespace(sep)
    requires forall i :: 0 <= i < |before| ==> IsBlank(before[i])
    requires forall i :: 0 <= i < |after| ==> IsBlank(after[i])
    requires |body| > 0
    ensures Trim(Join(before + body + after, sep)) == Trim(Join(body, sep))
  {
    var right := JoinBlanksAfter(body, after, sep);
    var all := before + (body + after);
    assert before + body + after == all;
    var left := JoinBlanksBefore(before, body + after, sep);
    var mid := Join(body, sep);
    assert Join(all, sep) == left + (mid + right);
    assert left + (mid + right) == left + mid + right;
    TrimPadded(Join(all, sep), left, mid, right);
  }

  /** Blank lines around the intermediate content (or the query) are dropped,
      while the lines in between keep their text and indentation. */
  lemma BlankLinesAroundDropped(before: seq<string>, body: seq<string>, after: seq<string>)
    requires forall i :: 0 <= i < |before| ==> IsBlank(before[i])
    requires forall i :: 0 <= i < |after| ==> IsBlank(after[i])
    requires |body| > 0
    ensures Trim(Join(before + body + after, "\n")) == Trim(Join(body, "\n"))
  {
    assert IsWhitespace("\n"[0]);
    BlankLinesAroundDroppedWith(before, body, after, "\n");
  }

  lemma {:induction false} BlankLinesSkipped(blanks: seq<string>, rest: seq<string>)
    requires forall i :: 0 <= i < |blanks| ==> IsBlank(blanks[i])
    ensures ParseLines(blanks + rest) == ParseLines(rest)
  {
    if |blanks| > 0 {
      assert blanks + rest == [blanks[0]] + (blanks[1..] + rest);
      BlankLineSkipped(blanks[0], blanks[1..] + rest);
      BlankLinesSkipped(blanks[1..], rest);
    } else {
      assert blanks + rest == rest;
    }
  }

  /** The shape of a code block: declarations, blank lines, intermediate
      content, then the query. The tables come in declaration order, the
      content and the query are the trimmed text of their lines. */
  lemma BlockShape(decls: seq<string>, ts: seq<TableStatement>, blanks: seq<string>, content: seq<string>, query: seq<string>)
    requires |decls| == |ts|
    requires forall i :: 0 <= i < |decls| ==> ParseDeclaration(decls[i]) == Some(ts[i])
    requires forall i :: 0 <= i < |blanks| ==> IsBlank(blanks[i])
    requires content + query == [] || Classify((content + query)[0]) == Content
    requires forall i :: 0 <= i < |content| ==> !IsQueryLine(content[i])
    requires query == [] || IsQueryLine(query[0])
    ensures ParseLines(decls + (blanks + (content + query))) ==
      Success(ParsedLanguage(ts, Trim(Join(content, "\n")), Trim(Join(query, "\n"))))
  {
    var rest := blanks + (content + query);
    DeclarationsInOrder(decls, ts, rest);
    UnheadedBlock(blanks, content, query);
    assert ts + [] == ts;
  }

  lemma UnheadedBlock(blanks: seq<string>, content: seq<string>, query: seq<string>)
    requires forall i :: 0 <= i < |blanks| ==> IsBlank(blanks[i])
    requires content + query == [] || Classify((content + query)[0]) == Content
    requires forall i :: 0 <= i < |content| ==> !IsQueryLine(content[i])
    requires query == [] || IsQueryLine(query[0])
    ensures ParseLines(blanks + (content + query)) ==
      Success(ParsedLanguage([], Trim(Join(content, "\n")), Trim(Join(query, "\n"))))
  {
    BlankLinesSkipped(blanks, content + query);
    ContentThenQuery(content, query);
  }

  /** The same block written as text, one line per element. */
  lemma BlockText(decls: seq<string>, ts: seq<TableStatement>, blanks: seq<string>, content: seq<string>, query: seq<string>)
    requires |decls| == |ts|
    requires forall i :: 0 <= i < |decls| ==> ParseDeclaration(decls[i]) == Some(ts[i])
    requires forall i :: 0 <= i < |blanks| ==> IsBlank(blanks[i])
    requires content + query == [] || Classify((content + query)[0]) == Content
    requires forall i :: 0 <= i < |content| ==> !IsQueryLine(content[i])
    requires query == [] || IsQueryLine(query[0])
    requires |decls + (blanks + (content + query))| > 0
    requires forall i :: 0 <= i < |decls + (blanks + (content + query))| ==> '\n' !in (decls + (blanks + (content + query)))[i]
    ensures ParseLanguage(Join(decls + (blanks + (content + query)), "\n")) ==
      Success(ParsedLanguage(ts, Trim(Join(content, "\n")), Trim(Join(query, "\n"))))
  {
    SplitJoin(decls + (blanks + (content + query)), '\n');
    BlockShape(decls, ts, blanks, content, query);
  }
}
