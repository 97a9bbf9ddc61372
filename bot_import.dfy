/** Bulk bot import of the "add bot" dialog: one bot per line written as
    `name|token`. Blank lines are skipped; any other line must give a
    non-empty name and token, or the whole import is refused. */
module BotImport {
  import opened Wrappers
  import opened Strings
  import Lists

  datatype BotInput = BotInput(isim: string, token: string)

  datatype ImportError = InvalidFormat | NoBots

  function ErrorMessage(e: ImportError): string {
    match e
    case InvalidFormat => "Geçersiz format. Her satır \"isim|token\" şeklinde olmalıdır"
    case NoBots => "Eklenecek bot bulunamadı"
  }

  predicate NonBlank(line: string) {
    Trim(line) != ""
  }

  /** `text.split('\n').filter(line => line.trim())`. */
  function NonBlankLines(text: string): seq<string> {
    Lists.Filter(Split(text, '\n'), NonBlank)
  }

  /** One line: the first two `|`-separated fields, trimmed, are the name and
      the token; further fields are ignored, and a missing or empty one makes
      the line invalid. */
  function ParseLine(line: string): Option<BotInput> {
    var parts := Split(line, '|');
    var isim := Trim(parts[0]);
    var token := if |parts| >= 2 then Trim(parts[1]) else "";
    if isim == "" || token == "" then None else Some(BotInput(isim, token))
  }

  /** Every line in order, or `None` at the first invalid one. */
  function ParseAll(lines: seq<string>): Option<seq<BotInput>> {
    Lists.MapAll(lines, ParseLine)
  }

  /** `handleTopluEkle`: the bots to add, or the error shown. */
  function ParseBulk(text: string): Result<seq<BotInput>, ImportError> {
    match ParseAll(NonBlankLines(text))
    case None => Err(InvalidFormat)
    case Some(bots) => if bots == [] then Err(NoBots) else Ok(bots)
  }

  /** The submit button is enabled only when the text is not blank. */
  predicate CanSubmit(text: string) {
    Trim(text) != ""
  }

  /** What an accepted bot looks like: a non-empty trimmed name and token,
      neither containing the field or line separator. */
  predicate WellFormed(b: BotInput) {
    b.isim != "" && b.token != "" && Trim(b.isim) == b.isim && Trim(b.token) == b.token
    && '|' !in b.isim && '|' !in b.token && '\n' !in b.isim && '\n' !in b.token
  }

  /** A valid line gives a well-formed bot; nothing else is accepted. */
  lemma ParseLineWellFormed(line: string)
    requires '\n' !in line
    ensures ParseLine(line).Some? ==> WellFormed(ParseLine(line).value)
  {
    var parts := Split(line, '|');
    SplitNoChar(line, '|', '\n');
    TrimIdempotent(parts[0]);
    TrimNoChar(parts[0], '|');
    TrimNoChar(parts[0], '\n');
    if |parts| >= 2 {
      TrimIdempotent(parts[1]);
      TrimNoChar(parts[1], '|');
      TrimNoChar(parts[1], '\n');
    }
  }

  /** The list is accepted exactly when every line is, and then bot `i`
      comes from line `i`. */
  lemma ParseAllSpec(lines: seq<string>)
    ensures ParseAll(lines).Some? <==> forall i :: 0 <= i < |lines| ==> ParseLine(lines[i]).Some?
    ensures ParseAll(lines).Some? ==>
      |ParseAll(lines).value| == |lines|
      && forall i :: 0 <= i < |lines| ==> ParseAll(lines).value[i] == ParseLine(lines[i]).value
  {
    Lists.MapAllSpec(lines, ParseLine);
  }

  /** Writing a name and token as `name|token` and reading the line back
      gives them unchanged. */
  lemma ParseLineFormat(b: BotInput)
    requires WellFormed(b)
    ensures ParseLine(b.isim + "|" + b.token) == Some(b)
  {
    SplitCons(b.isim, '|', b.token);
    assert b.isim + "|" + b.token == b.isim + ['|'] + b.token;
  }

  function FormatLine(b: BotInput): string {
    b.isim + "|" + b.token
  }

  function FormatLines(bots: seq<BotInput>): (lines: seq<string>)
    ensures |lines| == |bots|
    ensures forall i :: 0 <= i < |bots| ==> lines[i] == FormatLine(bots[i])
  {
    seq(|bots|, i requires 0 <= i < |bots| => FormatLine(bots[i]))
  }

  /** The bots written one per line, the format the dialog asks for. */
  function Format(bots: seq<BotInput>): string {
    Join(FormatLines(bots), "\n")
  }

  lemma FormatLineNonBlank(b: BotInput)
    requires WellFormed(b)
    ensures NonBlank(FormatLine(b)) && '\n' !in FormatLine(b)
  {
    TrimmedStart(b.isim);
    LineNonBlank(b.isim, b.token);
  }

  lemma LineNonBlank(isim: string, token: string)
    requires isim != [] && !IsJsSpace(isim[0])
    requires '\n' !in isim && '\n' !in token
    ensures NonBlank(isim + "|" + token) && '\n' !in isim + "|" + token
  {
    var line := isim + "|" + token;
    assert line[0] == isim[0];
    NotBlank(line);
  }

  /** Any non-empty list of well-formed bots, written one per line, is read
      back as exactly that list. */
  lemma ParseBulkFormat(bots: seq<BotInput>)
    requires bots != []
    requires forall i :: 0 <= i < |bots| ==> WellFormed(bots[i])
    ensures ParseBulk(Format(bots)) == Ok(bots)
  {
    FormatLinesKept(bots);
    FormatLinesParsed(bots);
  }

  /** Each written line survives the split and the blank-line filter. */
  lemma FormatLinesKept(bots: seq<BotInput>)
    requires bots != []
    requires forall i :: 0 <= i < |bots| ==> WellFormed(bots[i])
    ensures NonBlankLines(Format(bots)) == FormatLines(bots)
  {
    var lines := FormatLines(bots);
    forall i | 0 <= i < |lines| ensures NonBlank(lines[i]) && '\n' !in lines[i] {
      FormatLineNonBlank(bots[i]);
    }
    SplitJoin(lines, '\n');
    Lists.FilterKeepsAll(lines, NonBlank);
  }

  /** Each written line is read back as its bot. */
  lemma FormatLinesParsed(bots: seq<BotInput>)
    requires forall i :: 0 <= i < |bots| ==> WellFormed(bots[i])
    ensures ParseAll(FormatLines(bots)) == Some(bots)
  {
    var lines := FormatLines(bots);
    forall i | 0 <= i < |lines| ensures ParseLine(lines[i]) == Some(bots[i]) {
      ParseLineFormat(bots[i]);
    }
    ParseAllSpec(lines);
    assert ParseAll(lines).value == bots;
  }

  /** Every bot of an accepted import is well formed, and there is at least
      one. */
  lemma ParseBulkWellFormed(text: string)
    ensures ParseBulk(text).Ok? ==> ParseBulk(text).value != []
    ensures ParseBulk(text).Ok? ==>
      forall i :: 0 <= i < |ParseBulk(text).value| ==> WellFormed(ParseBulk(text).value[i])
  {
    var lines := NonBlankLines(text);
    ParseAllSpec(lines);
    forall i | 0 <= i < |lines| ensures '\n' !in lines[i] {
      assert lines[i] in Split(text, '\n');
    }
    forall i | 0 <= i < |lines| ensures ParseLine(lines[i]).Some? ==> WellFormed(ParseLine(lines[i]).value) {
      ParseLineWellFormed(lines[i]);
    }
  }

  lemma {:induction false} JoinAllSpace(parts: seq<string>, sep: string)
    requires AllSpace(sep)
    requires forall i :: 0 <= i < |parts| ==> AllSpace(parts[i])
    ensures AllSpace(Join(parts, sep))
    decreases |parts|
  {
    if |parts| > 1 {
      JoinAllSpace(parts[1..], sep);
    }
  }

  /** "No bots" is reported exactly for a text that is all whitespace, so
      it never shows while the submit button is enabled. */
  lemma NoBotsIffBlank(text: string)
    ensures ParseBulk(text) == Err(NoBots) <==> !CanSubmit(text)
  {
    TrimEmptyIff(text);
    NoBotsIffNoLines(text);
    if NonBlankLines(text) == [] {
      NoLinesAllSpace(text);
    } else {
      SomeLineNotAllSpace(text);
    }
  }

  lemma NoBotsIffNoLines(text: string)
    ensures ParseBulk(text) == Err(NoBots) <==> NonBlankLines(text) == []
  {
    Lists.MapAllSpec(NonBlankLines(text), ParseLine);
  }

  lemma NoLinesAllSpace(text: string)
    requires NonBlankLines(text) == []
    ensures AllSpace(text)
  {
    var pieces := Split(text, '\n');
    forall i | 0 <= i < |pieces| ensures AllSpace(pieces[i]) {
      TrimEmptyIff(pieces[i]);
    }
    JoinSplit(text, '\n');
    JoinAllSpace(pieces, "\n");
  }

  lemma SomeLineNotAllSpace(text: string)
    requires NonBlankLines(text) != []
    ensures !AllSpace(text)
  {
    var lines := NonBlankLines(text);
    var pieces := Split(text, '\n');
    TrimEmptyIff(lines[0]);
    var k :| 0 <= k < |lines[0]| && !IsJsSpace(lines[0][k]);
    assert lines[0] in pieces;
    var j :| 0 <= j < |pieces| && pieces[j] == lines[0];
    JoinSplit(text, '\n');
    JoinHasPart(pieces, "\n", j, k);
  }

  /** A character of a part is a character of the joined text. */
  lemma {:induction false} JoinHasPart(parts: seq<string>, sep: string, j: nat, k: nat)
    requires j < |parts| && k < |parts[j]|
    ensures parts[j][k] in Join(parts, sep)
    decreases |parts|
  {
    if |parts| > 1 {
      if j == 0 {
        assert Join(parts, sep)[k] == parts[0][k];
      } else {
        JoinHasPart(parts[1..], sep, j - 1, k);
      }
    }
  }
}
