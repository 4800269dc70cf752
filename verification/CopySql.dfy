/** The COPY statement of internal/web/copy_data.go. */
module CopySql {
  import opened Wrappers
  import opened GoStrings
  import opened SqlQuote
  import opened SqlNames
  import opened ClosedSql
  import opened SplitStatements
  import opened SplitLaws
  import opened AlterObject

  // ---- One-character options -------------------------------------------------------------

  const TAB_LITERAL := "E'\\t'"

  predicate IsTab(s: string) {
    s == "tab" || s == "\\t"
  }

  /** copyChar, on a string of bytes. */
  function CopyChar(tag: string, s: string): Result<string> {
    if IsTab(s) then Ok(TAB_LITERAL)
    else if |s| != 1 || s == "\n" || s == "\r" then Err(tag + " must be a single character (or \"tab\").")
    else Ok(QuoteLiteral(s))
  }

  /** What a literal stands for: quoted text, or the tab escape. */
  function LiteralMeaning(s: string): Option<string> {
    if s == TAB_LITERAL then Some("\t")
    else
      match ReadLiteral(s)
      case None => None
      case Some((x, rest)) => if rest == "" then Some(x) else None
  }

  /** An accepted option stands for exactly one character: the one typed, or a tab. */
  lemma CopyCharMeansTheCharacter(tag: string, s: string)
    ensures CopyChar(tag, s).Ok? <==> IsTab(s) || (|s| == 1 && s != "\n" && s != "\r")
    ensures CopyChar(tag, s).Ok? ==> LiteralMeaning(CopyChar(tag, s).value) == Some(if IsTab(s) then "\t" else s)
  {
    ReadQuoteLiteral(s, "");
    assert QuoteLiteral(s) + "" == QuoteLiteral(s);
  }

  // ---- The statement --------------------------------------------------------------------------

  datatype Dir = Import | Export

  function DirOf(dir: string): Option<Dir> {
    match dir
    case "import" => Some(Import)
    case "export" => Some(Export)
    case _ => None
  }

  predicate IsFormat(format: string) {
    format == "csv" || format == "text" || format == "binary"
  }

  function FormatOf(v: Form): string {
    if Value(v, "format") == "" then "csv" else Value(v, "format")
  }

  /** The pattern ^[A-Za-z0-9_-]{1,40}$ */
  predicate IsEncodingName(s: string) {
    1 <= |s| <= 40 && forall i :: 0 <= i < |s| ==> IsSqlIdentByte(s[i]) || s[i] == '-'
  }

  function CharOption(opt: string, tag: string, value: string, allowed: bool): Result<seq<string>> {
    if value == "" || !allowed then Ok([])
    else
      match CopyChar(tag, value)
      case Err(m) => Err(m)
      case Ok(lit) => Ok([opt + " " + lit])
  }

  function HeaderOption(v: Form, format: string): seq<string> {
    if format == "csv" && Value(v, "header") == "on" then ["HEADER true"] else []
  }

  function NullOption(v: Form, format: string): seq<string> {
    if format != "binary" && Value(v, "null") != "" then ["NULL " + QuoteLiteral(Value(v, "null"))] else []
  }

  function EncodingOption(v: Form): Result<seq<string>> {
    var enc := Value(v, "encoding");
    if enc == "" then Ok([])
    else if !IsEncodingName(enc) then Err("Invalid encoding.")
    else Ok(["ENCODING " + QuoteLiteral(enc)])
  }

  /** The options in the order of the statement, or the first error in that order. */
  function CopyOptions(v: Form, format: string): Result<seq<string>> {
    match CharOption("DELIMITER", "Delimiter", Value(v, "delimiter"), format != "binary")
    case Err(m) => Err(m)
    case Ok(delimiter) =>
      match CharOption("QUOTE", "Quote", Value(v, "quote"), format == "csv")
      case Err(m) => Err(m)
      case Ok(quote) =>
        match CharOption("ESCAPE", "Escape", Value(v, "escape"), format == "csv")
        case Err(m) => Err(m)
        case Ok(escape) =>
          match EncodingOption(v)
          case Err(m) => Err(m)
          case Ok(encoding) =>
            Ok(["FORMAT " + format] + HeaderOption(v, format) + delimiter + NullOption(v, format) + quote + escape + encoding)
  }

  function QuotedColumns(cols: seq<string>): seq<string> {
    if |cols| == 0 then []
    else
      var c := Trim(cols[|cols| - 1]);
      QuotedColumns(cols[..|cols| - 1]) + if c == "" then [] else [QuoteIdent(c)]
  }

  function ColumnList(cols: seq<string>): string {
    if QuotedColumns(cols) == [] then "" else " (" + Join(QuotedColumns(cols), ", ") + ")"
  }

  function Endpoint(dir: Dir): string {
    if dir == Export then "TO STDOUT" else "FROM STDIN"
  }

  function CopyText(dir: Dir, v: Form, cols: seq<string>, opts: seq<string>): string {
    "COPY " + (QualIdent(Field(v, "schema"), Field(v, "table")) + ColumnList(cols)) + " " + Endpoint(dir) + " WITH (" + Join(opts, ", ") + ")"
  }

  function CopyScript(dir: string, v: Form, cols: seq<string>): Result<string> {
    if DirOf(dir).None? then Err("Unknown direction.")
    else if Field(v, "schema") == "" || Field(v, "table") == "" then Err("Table is required.")
    else if !IsFormat(FormatOf(v)) then Err("Unsupported format.")
    else
      match CopyOptions(v, FormatOf(v))
      case Err(m) => Err(m)
      case Ok(opts) => Ok(CopyText(DirOf(dir).value, v, cols, opts))
  }

  /** buildCopySQL */
  method BuildCopySql(dir: string, v: Form, cols: seq<string>) returns (r: Result<string>)
    ensures r == CopyScript(dir, v, cols)
  {
    hide Trim, Join, QuoteIdent, QualIdent, CopyOptions, IsFormat;
    if dir != "import" && dir != "export" {
      return Err("Unknown direction.");
    }
    var schema, table := Field(v, "schema"), Field(v, "table");
    if schema == "" || table == "" {
      return Err("Table is required.");
    }
    var format := FormatOf(v);
    if !IsFormat(format) {
      return Err("Unsupported format.");
    }
    var opts := CollectCopyOptions(v, format);
    if opts.Err? {
      return Err(opts.message);
    }
    var target := QualIdent(schema, table);
    var quoted := QuoteColumns(cols);
    target := target + if |quoted| > 0 then " (" + Join(quoted, ", ") + ")" else "";
    var endpoint := "FROM STDIN";
    if dir == "export" {
      endpoint := "TO STDOUT";
    }
    return Ok("COPY " + target + " " + endpoint + " WITH (" + Join(opts.value, ", ") + ")");
  }

  method QuoteColumns(cols: seq<string>) returns (quoted: seq<string>)
    ensures quoted == QuotedColumns(cols)
  {
    hide Trim, QuoteIdent;
    quoted := [];
    for i := 0 to |cols|
      invariant quoted == QuotedColumns(cols[..i])
    {
      assert cols[..i + 1][..i] == cols[..i];
      var c := Trim(cols[i]);
      if c != "" {
        quoted := quoted + [QuoteIdent(c)];
      }
    }
    assert cols[..|cols|] == cols;
  }

  method CollectCopyOptions(v: Form, format: string) returns (r: Result<seq<string>>)
    ensures r == CopyOptions(v, format)
  {
    hide CharOption, QuoteLiteral, IsEncodingName;
    var opts := ["FORMAT " + format];
    var text := format != "binary";
    if format == "csv" && Value(v, "header") == "on" {
      opts := opts + ["HEADER true"];
    }
    assert opts == ["FORMAT " + format] + HeaderOption(v, format);
    hide HeaderOption;
    var delimiter := CharOption("DELIMITER", "Delimiter", Value(v, "delimiter"), text);
    if delimiter.Err? {
      return delimiter;
    }
    opts := opts + delimiter.value;
    opts := opts + if text && Value(v, "null") != "" then ["NULL " + QuoteLiteral(Value(v, "null"))] else [];
    var quote := CharOption("QUOTE", "Quote", Value(v, "quote"), format == "csv");
    if quote.Err? {
      return quote;
    }
    opts := opts + quote.value;
    var escape := CharOption("ESCAPE", "Escape", Value(v, "escape"), format == "csv");
    if escape.Err? {
      return escape;
    }
    opts := opts + escape.value;
    var enc := Value(v, "encoding");
    if enc == "" {
      return Ok(opts + []);
    }
    if !IsEncodingName(enc) {
      return Err("Invalid encoding.");
    }
    return Ok(opts + ["ENCODING " + QuoteLiteral(enc)]);
  }

  // ---- The statement as text --------------------------------------------------------------------

  lemma BalancedCopyChar(tag: string, s: string)
    ensures CopyChar(tag, s).Ok? ==> Balanced(CopyChar(tag, s).value)
  {
    hide Balanced;
    BalancedPlain("E");
    BalancedQuoteLiteral("\\t");
    BalancedConcat("E", QuoteLiteral("\\t"));
    assert TAB_LITERAL == "E" + QuoteLiteral("\\t") by {
      DoubledCons("\\t", '\'');
      DoubledCons("t", '\'');
      assert "\\t"[1..] == "t" && "t"[1..] == "";
    }
    BalancedQuoteLiteral(s);
  }

  ghost predicate AllBalanced(parts: seq<string>) {
    forall i | 0 <= i < |parts| :: Balanced(parts[i])
  }

  lemma WordsAndLiteral(words: string, lit: string)
    requires IsPlain(words) && Balanced(lit)
    ensures AllBalanced([words + lit])
  {
    hide Balanced;
    BalancedPlain(words);
    BalancedConcat(words, lit);
  }

  lemma CharOptionBalanced(opt: string, tag: string, value: string, allowed: bool)
    requires IsPlain(opt)
    ensures CharOption(opt, tag, value, allowed).Ok? ==> AllBalanced(CharOption(opt, tag, value, allowed).value)
  {
    hide Balanced, CopyChar;
    if value != "" && allowed && CopyChar(tag, value).Ok? {
      BalancedCopyChar(tag, value);
      WordsAndLiteral(opt + " ", CopyChar(tag, value).value);
    }
  }

  lemma AllBalancedConcat(a: seq<string>, b: seq<string>)
    requires AllBalanced(a) && AllBalanced(b)
    ensures AllBalanced(a + b)
  {
    hide Balanced;
  }

  lemma FixedOptionsBalanced(v: Form, format: string)
    requires IsFormat(format)
    ensures AllBalanced(["FORMAT " + format]) && AllBalanced(HeaderOption(v, format)) && AllBalanced(NullOption(v, format))
    ensures EncodingOption(v).Ok? ==> AllBalanced(EncodingOption(v).value)
  {
    hide Balanced, QuoteLiteral;
    BalancedPlain("FORMAT " + format);
    BalancedPlain("HEADER true");
    BalancedQuoteLiteral(Value(v, "null"));
    WordsAndLiteral("NULL ", QuoteLiteral(Value(v, "null")));
    BalancedQuoteLiteral(Value(v, "encoding"));
    WordsAndLiteral("ENCODING ", QuoteLiteral(Value(v, "encoding")));
  }

  lemma OptionsBalanced(v: Form, format: string)
    requires IsFormat(format)
    ensures CopyOptions(v, format).Ok? ==> AllBalanced(CopyOptions(v, format).value)
  {
    hide AllBalanced, CharOption, HeaderOption, NullOption, EncodingOption, IsFormat;
    FixedOptionsBalanced(v, format);
    CharOptionBalanced("DELIMITER", "Delimiter", Value(v, "delimiter"), format != "binary");
    CharOptionBalanced("QUOTE", "Quote", Value(v, "quote"), format == "csv");
    CharOptionBalanced("ESCAPE", "Escape", Value(v, "escape"), format == "csv");
    if CopyOptions(v, format).Ok? {
      var delimiter := CharOption("DELIMITER", "Delimiter", Value(v, "delimiter"), format != "binary").value;
      var quote := CharOption("QUOTE", "Quote", Value(v, "quote"), format == "csv").value;
      var escape := CharOption("ESCAPE", "Escape", Value(v, "escape"), format == "csv").value;
      var start := ["FORMAT " + format] + HeaderOption(v, format);
      AllBalancedConcat(["FORMAT " + format], HeaderOption(v, format));
      AllBalancedConcat(start, delimiter);
      AllBalancedConcat(start + delimiter, NullOption(v, format));
      AllBalancedConcat(start + delimiter + NullOption(v, format), quote);
      AllBalancedConcat(start + delimiter + NullOption(v, format) + quote, escape);
      AllBalancedConcat(start + delimiter + NullOption(v, format) + quote + escape, EncodingOption(v).value);
    }
  }

  lemma {:induction false} QuotedColumnsBalanced(cols: seq<string>)
    ensures AllBalanced(QuotedColumns(cols))
  {
    hide Balanced, QuoteIdent, Trim;
    if |cols| > 0 {
      QuotedColumnsBalanced(cols[..|cols| - 1]);
      BalancedQuoteIdent(Trim(cols[|cols| - 1]));
    }
  }

  lemma ColumnListBalanced(cols: seq<string>)
    ensures Balanced(ColumnList(cols))
  {
    hide Balanced, Join, QuotedColumns;
    BalancedEmpty();
    BalancedPlain(" (");
    BalancedPlain(", ");
    BalancedPlain(")");
    QuotedColumnsBalanced(cols);
    BalancedJoin(QuotedColumns(cols), ", ");
    BalancedConcat(" (", Join(QuotedColumns(cols), ", "));
    BalancedConcat(" (" + Join(QuotedColumns(cols), ", "), ")");
  }

  lemma EndpointIsPlain(dir: Dir)
    ensures IsPlain(Endpoint(dir))
  {
  }

  lemma CopyTextTrimmed(dir: Dir, v: Form, cols: seq<string>, opts: seq<string>)
    ensures IsTrimmed(CopyText(dir, v, cols, opts))
  {
    hide Join, QualIdent, ColumnList, Field, Endpoint;
    var s := CopyText(dir, v, cols, opts);
    assert s[0] == 'C' && s[|s| - 1] == ')';
  }

  lemma CopyTextClosed(dir: Dir, v: Form, cols: seq<string>, opts: seq<string>)
    requires AllBalanced(opts)
    ensures Closed(CopyText(dir, v, cols, opts))
  {
    hide Balanced, Join, QualIdent, ColumnList, Field, Endpoint, IsTrimmed;
    var q := QualIdent(Field(v, "schema"), Field(v, "table"));
    BalancedPlain("COPY ");
    BalancedQualIdent(Field(v, "schema"), Field(v, "table"));
    ColumnListBalanced(cols);
    BalancedConcat(q, ColumnList(cols));
    BalancedPlain(" ");
    EndpointIsPlain(dir);
    BalancedPlain(Endpoint(dir));
    BalancedPlain(" WITH (");
    BalancedPlain(", ");
    BalancedPlain(")");
    CopyTextTrimmed(dir, v, cols, opts);
    BalancedJoin(opts, ", ");
    BalancedSeven("COPY ", q + ColumnList(cols), " ", Endpoint(dir), " WITH (", Join(opts, ", "), ")");
  }

  /** An accepted COPY statement is closed for any table, columns and options, so that it
  is one statement to the splitter: unchanged exactly if it is ASCII. */
  lemma CopyIsOneStatement(dir: string, v: Form, cols: seq<string>)
    requires CopyScript(dir, v, cols).Ok?
    ensures var s := CopyScript(dir, v, cols).value;
            Closed(s) && (Split(s) == [s] <==> IsAscii(s))
  {
    hide Closed, AllBalanced, CopyOptions, CopyText, IsFormat, Split, Field;
    OptionsBalanced(v, FormatOf(v));
    CopyTextClosed(DirOf(dir).value, v, cols, CopyOptions(v, FormatOf(v)).value);
    SplitClosed(CopyScript(dir, v, cols).value);
    Utf8FixesAscii(CopyScript(dir, v, cols).value);
  }
}
