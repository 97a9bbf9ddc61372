/** The AI assistant's handling of a chat request that does not depend on the
    language model: the user message with the names of the attached files
    appended, and the extraction of panel actions from the model's answer. */
module AIActions {
  import opened Wrappers
  import opened Strings

  datatype ActionType = AddFeature | ModifyFeature | RemoveFeature
  datatype ActionStatus = Pending | InProgress | Completed | Failed

  /** A panel change the assistant proposes. */
  datatype PanelAction = PanelAction(
    kind: ActionType,
    component: string,
    description: string,
    code: Option<string>,
    status: ActionStatus)

  /** The action being read: a header line opened it, and the lines after it
      fill in its fields (`None` = not given yet). */
  datatype Draft = Draft(
    kind: ActionType,
    component: Option<string>,
    description: Option<string>,
    code: Option<string>)

  const FilesHeading: string := "Eklenen dosyalar:"

  // ----- the message sent to the model -----

  /** One `- name` line per attached file, in order. */
  function FileLines(names: seq<string>): string {
    if names == [] then "" else "- " + names[0] + "\n" + FileLines(names[1..])
  }

  lemma {:induction false} FileLinesSnoc(names: seq<string>, n: string)
    ensures FileLines(names + [n]) == FileLines(names) + "- " + n + "\n"
  {
    if names != [] {
      assert (names + [n])[1..] == names[1..] + [n];
      FileLinesSnoc(names[1..], n);
    }
  }

  /** `handleChat`'s `processedMessage`: the message alone when no file is
      attached, otherwise the message, a blank line, the heading, and one
      line per file. */
  method ProcessMessage(message: string, fileNames: seq<string>) returns (processed: string)
    ensures fileNames == [] ==> processed == message
    ensures fileNames != [] ==> processed == message + "\n\n" + FilesHeading + "\n" + FileLines(fileNames)
  {
    processed := message;
    if |fileNames| > 0 {
      processed := processed + "\n\n" + FilesHeading + "\n";
      var i := 0;
      while i < |fileNames|
        invariant 0 <= i <= |fileNames|
        invariant processed == message + "\n\n" + FilesHeading + "\n" + FileLines(fileNames[..i])
      {
        FileLinesSnoc(fileNames[..i], fileNames[i]);
        assert fileNames[..i + 1] == fileNames[..i] + [fileNames[i]];
        processed := processed + "- " + fileNames[i] + "\n";
        i := i + 1;
      }
      assert fileNames[..i] == fileNames;
    }
  }

  function Bullets(names: seq<string>): (r: seq<string>)
    ensures |r| == |names|
    ensures forall i :: 0 <= i < |names| ==> r[i] == "- " + names[i]
  {
    seq(|names|, i requires 0 <= i < |names| => "- " + names[i])
  }

  lemma {:induction false} FileLinesSplit(names: seq<string>)
    requires forall i :: 0 <= i < |names| ==> '\n' !in names[i]
    ensures Split(FileLines(names), '\n') == Bullets(names) + [""]
  {
    if names != [] {
      var line := "- " + names[0];
      var rest := FileLines(names[1..]);
      assert forall i :: 0 <= i < |names[1..]| ==> names[1..][i] == names[i + 1];
      FileLinesSplit(names[1..]);
      assert FileLines(names) == line + ['\n'] + rest;
      assert '\n' !in line by {
        assert '\n' !in names[0];
        assert line == ['-', ' '] + names[0];
      }
      SplitCons(line, '\n', rest);
      BulletsCons(names);
      assert [line] + (Bullets(names[1..]) + [""]) == ([line] + Bullets(names[1..])) + [""];
    }
  }

  lemma BulletsCons(names: seq<string>)
    requires names != []
    ensures Bullets(names) == ["- " + names[0]] + Bullets(names[1..])
  {
    var b := ["- " + names[0]] + Bullets(names[1..]);
    assert forall i :: 1 <= i < |names| ==> b[i] == Bullets(names[1..])[i - 1];
  }

  /** With attachments whose names have no line break, the text sent to the
      model reads, line by line: the message's own lines, an empty line, the
      heading, one `- name` line per file in order, and nothing after the
      final line break. */
  lemma ProcessedMessageLines(message: string, fileNames: seq<string>)
    requires fileNames != []
    requires forall i :: 0 <= i < |fileNames| ==> '\n' !in fileNames[i]
    ensures Split(message + "\n\n" + FilesHeading + "\n" + FileLines(fileNames), '\n')
         == Split(message, '\n') + ["", FilesHeading] + Bullets(fileNames) + [""]
  {
    var tail := FileLines(fileNames);
    var s2 := HeadingBlockLines(tail);
    ProcessedShape(message, tail);
    SplitAppend(message, '\n', s2);
    FileLinesSplit(fileNames);
    AppendAssoc(Split(message, '\n'), ["", FilesHeading], Bullets(fileNames) + [""]);
  }

  lemma ProcessedShape(message: string, tail: string)
    ensures message + "\n\n" + FilesHeading + "\n" + tail
         == message + ['\n'] + ("" + ['\n'] + (FilesHeading + ['\n'] + tail))
  {
  }

  lemma AppendAssoc<T>(a: seq<T>, b: seq<T>, c: seq<T>)
    ensures a + (b + c) == a + b + c
  {
  }

  /** The text after the message's own line break, split into lines. */
  lemma HeadingBlockLines(tail: string) returns (s2: string)
    ensures s2 == "" + ['\n'] + (FilesHeading + ['\n'] + tail)
    ensures Split(s2, '\n') == ["", FilesHeading] + Split(tail, '\n')
  {
    var s1 := FilesHeading + ['\n'] + tail;
    assert '\n' !in FilesHeading;
    SplitCons(FilesHeading, '\n', tail);
    s2 := "" + ['\n'] + s1;
    SplitCons("", '\n', s1);
  }

  // ----- reading actions out of the answer -----

  /** The action type a line opens, if it starts with `ADD_FEATURE:`,
      `MODIFY_FEATURE:` or `REMOVE_FEATURE:` (the line's own start: the
      pattern is anchored and not multi-line). */
  function HeaderType(line: string): Option<ActionType> {
    if StartsWith(line, "ADD_FEATURE:") then Some(AddFeature)
    else if StartsWith(line, "MODIFY_FEATURE:") then Some(ModifyFeature)
    else if StartsWith(line, "REMOVE_FEATURE:") then Some(RemoveFeature)
    else None
  }

  /** A draft is emitted only when its component and description are given
      and non-empty (the type is always set). */
  predicate Complete(d: Draft) {
    d.component.Some? && d.component.value != "" && d.description.Some? && d.description.value != ""
  }

  function Flush(cur: Option<Draft>): seq<PanelAction> {
    if cur.Some? && Complete(cur.value) then
      var d := cur.value;
      [PanelAction(d.kind, d.component.value, d.description.value, d.code, Pending)]
    else []
  }

  /** The text after a field's label, with whitespace trimmed. */
  function FieldValue(line: string, tag: string): (r: string)
    ensures Trim(r) == r
  {
    TrimIdempotent(ReplaceFirst(line, tag, ""));
    Trim(ReplaceFirst(line, tag, ""))
  }

  /** One line: a header emits the current draft (when complete) and opens a
      new one; otherwise, while a draft is open, a `Component:`,
      `Description:` or fence line sets that field; every other line is
      ignored. */
  function Step(cur: Option<Draft>, line: string): (Option<Draft>, seq<PanelAction>) {
    match HeaderType(line)
    case Some(t) => (Some(Draft(t, None, None, None)), Flush(cur))
    case None =>
      if cur.None? then (cur, [])
      else
        var d := cur.value;
        if StartsWith(line, "Component:") then (Some(d.(component := Some(FieldValue(line, "Component:")))), [])
        else if StartsWith(line, "Description:") then (Some(d.(description := Some(FieldValue(line, "Description:")))), [])
        else if StartsWith(line, "```") then (Some(d.(code := Some(FieldValue(line, "```")))), [])
        else (cur, [])
  }

  /** The actions read from `lines` starting with draft `cur`, the last draft
      included when complete. */
  function ParseFrom(cur: Option<Draft>, lines: seq<string>): seq<PanelAction>
    decreases |lines|
  {
    if lines == [] then Flush(cur)
    else
      var (next, out) := Step(cur, lines[0]);
      out + ParseFrom(next, lines[1..])
  }

  /** `parseActions`. */
  method ParseActions(response: string) returns (actions: seq<PanelAction>)
    ensures actions == ParseFrom(None, Split(response, '\n'))
  {
    var lines := Split(response, '\n');
    actions := [];
    var cur: Option<Draft> := None;
    var i := 0;
    while i < |lines|
      invariant 0 <= i <= |lines|
      invariant actions + ParseFrom(cur, lines[i..]) == ParseFrom(None, lines)
    {
      var line := lines[i];
      assert lines[i..] == [line] + lines[i + 1..];
      ReadOneLine(actions, cur, line, lines[i + 1..], ParseFrom(None, lines));
      ghost var next, out := Step(cur, line).0, Step(cur, line).1;
      ghost var before := actions;
      var header := HeaderType(line);
      if header.Some? {
        if cur.Some? && Complete(cur.value) {
          var d := cur.value;
          actions := actions + [PanelAction(d.kind, d.component.value, d.description.value, d.code, Pending)];
        }
        cur := Some(Draft(header.value, None, None, None));
        assert cur == next && actions == before + out;
        i := i + 1;
        continue;
      }
      if cur.Some? {
        if StartsWith(line, "Component:") {
          cur := Some(cur.value.(component := Some(FieldValue(line, "Component:"))));
        } else if StartsWith(line, "Description:") {
          cur := Some(cur.value.(description := Some(FieldValue(line, "Description:"))));
        } else if StartsWith(line, "```") {
          cur := Some(cur.value.(code := Some(FieldValue(line, "```"))));
        }
      }
      assert cur == next && out == [];
      assert actions == before + out;
      i := i + 1;
    }
    actions := actions + Flush(cur);
  }

  /** One loop round of `ParseActions` performs one `Step`. */
  lemma ReadOneLine(acts: seq<PanelAction>, cur: Option<Draft>, line: string, rest: seq<string>,
                    total: seq<PanelAction>)
    requires acts + ParseFrom(cur, [line] + rest) == total
    ensures acts + Step(cur, line).1 + ParseFrom(Step(cur, line).0, rest) == total
  {
    ParseFromCons(cur, line, rest);
    AppendAssoc(acts, Step(cur, line).1, ParseFrom(Step(cur, line).0, rest));
  }

  // ----- what the extracted actions satisfy -----

  /** A field value as `trim` leaves it. */
  predicate Trimmed(s: string) {
    Trim(s) == s
  }

  predicate DraftTrimmed(d: Draft) {
    (d.component.Some? ==> Trimmed(d.component.value))
    && (d.description.Some? ==> Trimmed(d.description.value))
    && (d.code.Some? ==> Trimmed(d.code.value))
  }

  /** Every action handed back is pending, has a non-empty component and
      description, and all its text fields are trimmed. */
  predicate WellFormed(a: PanelAction) {
    a.status == Pending && a.component != "" && a.description != ""
    && Trimmed(a.component) && Trimmed(a.description)
    && (a.code.Some? ==> Trimmed(a.code.value))
  }

  lemma StepKeepsTrimmed(cur: Option<Draft>, line: string)
    requires cur.Some? ==> DraftTrimmed(cur.value)
    ensures Step(cur, line).0.Some? ==> DraftTrimmed(Step(cur, line).0.value)
    ensures forall k :: 0 <= k < |Step(cur, line).1| ==> WellFormed(Step(cur, line).1[k])
  {
    if HeaderType(line).Some? {
      FlushWellFormed(cur);
    } else if cur.Some? {
      var d := cur.value;
      if StartsWith(line, "Component:") {
        assert Step(cur, line).0 == Some(d.(component := Some(FieldValue(line, "Component:"))));
      } else if StartsWith(line, "Description:") {
        assert Step(cur, line).0 == Some(d.(description := Some(FieldValue(line, "Description:"))));
      } else if StartsWith(line, "```") {
        assert Step(cur, line).0 == Some(d.(code := Some(FieldValue(line, "```"))));
      }
    }
  }

  lemma FlushWellFormed(cur: Option<Draft>)
    requires cur.Some? ==> DraftTrimmed(cur.value)
    ensures forall k :: 0 <= k < |Flush(cur)| ==> WellFormed(Flush(cur)[k])
  {
  }

  lemma {:induction false} ParseFromWellFormed(cur: Option<Draft>, lines: seq<string>)
    requires cur.Some? ==> DraftTrimmed(cur.value)
    ensures forall k :: 0 <= k < |ParseFrom(cur, lines)| ==> WellFormed(ParseFrom(cur, lines)[k])
    decreases |lines|
  {
    if lines != [] {
      StepKeepsTrimmed(cur, lines[0]);
      ParseFromWellFormed(Step(cur, lines[0]).0, lines[1..]);
    }
  }

  lemma ParseActionsWellFormed(response: string)
    ensures forall k :: 0 <= k < |ParseFrom(None, Split(response, '\n'))| ==>
              WellFormed(ParseFrom(None, Split(response, '\n'))[k])
  {
    ParseFromWellFormed(None, Split(response, '\n'));
  }

  function CountHeaders(lines: seq<string>): nat {
    if lines == [] then 0
    else (if HeaderType(lines[0]).Some? then 1 else 0) + CountHeaders(lines[1..])
  }

  /** Each action comes from its own header line: there are never more
      actions than header lines (plus the draft already open). */
  lemma {:induction false} ParseFromAtMostHeaders(cur: Option<Draft>, lines: seq<string>)
    ensures |ParseFrom(cur, lines)| <= CountHeaders(lines) + (if cur.Some? then 1 else 0)
    decreases |lines|
  {
    if lines != [] {
      ParseFromAtMostHeaders(Step(cur, lines[0]).0, lines[1..]);
    }
  }

  /** Lines before the first header are ignored, whatever they say. */
  lemma {:induction false} PreambleIgnored(preamble: seq<string>, rest: seq<string>)
    requires forall k :: 0 <= k < |preamble| ==> HeaderType(preamble[k]).None?
    ensures ParseFrom(None, preamble + rest) == ParseFrom(None, rest)
    decreases |preamble|
  {
    if preamble != [] {
      assert (preamble + rest)[0] == preamble[0];
      assert (preamble + rest)[1..] == preamble[1..] + rest;
      PreambleIgnored(preamble[1..], rest);
    } else {
      assert preamble + rest == rest;
    }
  }

  /** Any header line, whatever draft is open, emits that draft when it is
      complete and opens a fresh draft of the header's type with no field
      set. */
  lemma HeaderOpensDraft(cur: Option<Draft>, line: string)
    requires HeaderType(line).Some?
    ensures Step(cur, line).0 == Some(Draft(HeaderType(line).value, None, None, None))
    ensures Step(cur, line).1 == Flush(cur)
    ensures |Step(cur, line).1| == (if cur.Some? && Complete(cur.value) then 1 else 0)
  {
  }

  // ----- how the lines of one block fill the open draft -----

  /** The draft left open after reading `lines`. */
  function Advance(cur: Option<Draft>, lines: seq<string>): Option<Draft>
    decreases |lines|
  {
    if lines == [] then cur else Advance(Step(cur, lines[0]).0, lines[1..])
  }

  predicate NoHeader(lines: seq<string>) {
    forall k :: 0 <= k < |lines| ==> HeaderType(lines[k]).None?
  }

  /** The value of the last line of `lines` that starts with `tag`, or
      `init` when no line does. */
  function LastValue(lines: seq<string>, tag: string, init: Option<string>): Option<string>
    decreases |lines|
  {
    if lines == [] then init
    else if StartsWith(lines[|lines| - 1], tag) then Some(FieldValue(lines[|lines| - 1], tag))
    else LastValue(lines[..|lines| - 1], tag, init)
  }

  /** `LastValue` is the value of the last line carrying the tag, whatever
      came before it. */
  lemma {:induction false} LastValueAt(lines: seq<string>, tag: string, init: Option<string>, k: int)
    requires 0 <= k < |lines| && StartsWith(lines[k], tag)
    requires forall j :: k < j < |lines| ==> !StartsWith(lines[j], tag)
    ensures LastValue(lines, tag, init) == Some(FieldValue(lines[k], tag))
    decreases |lines|
  {
    if k < |lines| - 1 {
      var front := lines[..|lines| - 1];
      assert front[k] == lines[k];
      assert forall j :: k < j < |front| ==> front[j] == lines[j];
      LastValueAt(front, tag, init, k);
    }
  }

  /** With no line carrying the tag, the field keeps its earlier value. */
  lemma {:induction false} LastValueNone(lines: seq<string>, tag: string, init: Option<string>)
    requires forall j :: 0 <= j < |lines| ==> !StartsWith(lines[j], tag)
    ensures LastValue(lines, tag, init) == init
    decreases |lines|
  {
    if lines != [] {
      var front := lines[..|lines| - 1];
      assert forall j :: 0 <= j < |front| ==> front[j] == lines[j];
      LastValueNone(front, tag, init);
    }
  }

  /** A line starts with at most one of the three field labels. */
  lemma TagsExclusive(line: string)
    ensures StartsWith(line, "Component:") ==> !StartsWith(line, "Description:") && !StartsWith(line, "```")
    ensures StartsWith(line, "Description:") ==> !StartsWith(line, "```")
  {
    if StartsWith(line, "Component:") {
      assert line[0] == line[..10][0] == 'C';
    } else if StartsWith(line, "Description:") {
      assert line[0] == line[..12][0] == 'D';
    }
  }

  lemma {:induction false} AdvanceSnoc(cur: Option<Draft>, lines: seq<string>, line: string)
    ensures Advance(cur, lines + [line]) == Advance(Advance(cur, lines), [line])
    decreases |lines|
  {
    if lines != [] {
      assert (lines + [line])[0] == lines[0];
      assert (lines + [line])[1..] == lines[1..] + [line];
      AdvanceSnoc(Step(cur, lines[0]).0, lines[1..], line);
    }
  }

  /** In a block without header lines, each field holds the value of the
      last line carrying its label (the last `Component:`, `Description:`
      and fence line), or its value from before the block. */
  lemma {:induction false} BlockFields(d: Draft, block: seq<string>)
    requires NoHeader(block)
    ensures Advance(Some(d), block) == Some(Draft(d.kind,
      LastValue(block, "Component:", d.component),
      LastValue(block, "Description:", d.description),
      LastValue(block, "```", d.code)))
    decreases |block|
  {
    if block != [] {
      var front, line := block[..|block| - 1], block[|block| - 1];
      assert block == front + [line];
      assert forall j :: 0 <= j < |front| ==> front[j] == block[j];
      BlockFields(d, front);
      AdvanceSnoc(Some(d), front, line);
      TagsExclusive(line);
    }
  }

  /** The lines of a block emit nothing: what follows is read with the
      draft the block leaves open. */
  lemma {:induction false} ParseFromBlock(cur: Option<Draft>, block: seq<string>, rest: seq<string>)
    requires NoHeader(block)
    ensures ParseFrom(cur, block + rest) == ParseFrom(Advance(cur, block), rest)
    decreases |block|
  {
    if block != [] {
      assert (block + rest)[0] == block[0];
      assert (block + rest)[1..] == block[1..] + rest;
      ParseFromBlock(Step(cur, block[0]).0, block[1..], rest);
    } else {
      assert block + rest == rest;
    }
  }

  /** The draft a header of type `t` opens once the header-free `block`
      after it has been read. */
  function BlockDraft(t: ActionType, block: seq<string>): Draft {
    Draft(t, LastValue(block, "Component:", None), LastValue(block, "Description:", None), LastValue(block, "```", None))
  }

  /** A whole block: a header line, the header-free lines after it, then
      the next header or the end. The draft open before the header is
      emitted first (when complete); then the block's own draft, whose
      type is the header's and whose fields are the values of the block's
      last `Component:`, `Description:` and fence lines, is emitted (when
      complete) before anything read after the block. */
  lemma HeaderBlock(cur: Option<Draft>, h: string, block: seq<string>, rest: seq<string>)
    requires HeaderType(h).Some? && NoHeader(block)
    requires rest == [] || HeaderType(rest[0]).Some?
    ensures ParseFrom(cur, [h] + block + rest)
         == Flush(cur) + Flush(Some(BlockDraft(HeaderType(h).value, block)))
            + (if rest == [] then [] else ParseFrom(Some(Draft(HeaderType(rest[0]).value, None, None, None)), rest[1..]))
  {
    var d := BlockDraft(HeaderType(h).value, block);
    var after := if rest == [] then [] else ParseFrom(Some(Draft(HeaderType(rest[0]).value, None, None, None)), rest[1..]);
    HeaderThenBlock(cur, h, block, rest);
    BlockClosed(d, rest);
    AppendAssoc(Flush(cur), Flush(Some(d)), after);
  }

  lemma HeaderThenBlock(cur: Option<Draft>, h: string, block: seq<string>, rest: seq<string>)
    requires HeaderType(h).Some? && NoHeader(block)
    ensures ParseFrom(cur, [h] + block + rest)
         == Flush(cur) + ParseFrom(Some(BlockDraft(HeaderType(h).value, block)), rest)
  {
    var d0 := Draft(HeaderType(h).value, None, None, None);
    assert [h] + block + rest == [h] + (block + rest);
    ParseFromCons(cur, h, block + rest);
    ParseFromBlock(Some(d0), block, rest);
    BlockFields(d0, block);
  }

  /** The next header, or the end of the answer, emits the open draft. */
  lemma BlockClosed(d: Draft, rest: seq<string>)
    requires rest == [] || HeaderType(rest[0]).Some?
    ensures ParseFrom(Some(d), rest)
         == Flush(Some(d))
            + (if rest == [] then [] else ParseFrom(Some(Draft(HeaderType(rest[0]).value, None, None, None)), rest[1..]))
  {
    if rest != [] {
      assert rest == [rest[0]] + rest[1..];
      ParseFromCons(Some(d), rest[0], rest[1..]);
    }
  }

  // ----- every field stays on one line -----

  /** No text field of an action contains a line break. */
  predicate SingleLine(a: PanelAction) {
    '\n' !in a.component && '\n' !in a.description && (a.code.Some? ==> '\n' !in a.code.value)
  }

  predicate DraftSingleLine(d: Draft) {
    (d.component.Some? ==> '\n' !in d.component.value)
    && (d.description.Some? ==> '\n' !in d.description.value)
    && (d.code.Some? ==> '\n' !in d.code.value)
  }

  lemma FieldValueSingleLine(line: string, tag: string)
    requires '\n' !in line && StartsWith(line, tag)
    ensures '\n' !in FieldValue(line, tag)
  {
    ReplacePrefix(line, tag);
    var rest := line[|tag|..];
    assert forall j :: 0 <= j < |rest| ==> rest[j] == line[|tag| + j];
    TrimNoChar(rest, '\n');
  }

  lemma StepSingleLine(cur: Option<Draft>, line: string)
    requires '\n' !in line
    requires cur.Some? ==> DraftSingleLine(cur.value)
    ensures Step(cur, line).0.Some? ==> DraftSingleLine(Step(cur, line).0.value)
    ensures forall k :: 0 <= k < |Step(cur, line).1| ==> SingleLine(Step(cur, line).1[k])
  {
    if HeaderType(line).None? && cur.Some? {
      if StartsWith(line, "Component:") {
        FieldValueSingleLine(line, "Component:");
      } else if StartsWith(line, "Description:") {
        FieldValueSingleLine(line, "Description:");
      } else if StartsWith(line, "```") {
        FieldValueSingleLine(line, "```");
      }
    }
  }

  lemma {:induction false} ParseFromSingleLine(cur: Option<Draft>, lines: seq<string>)
    requires forall k :: 0 <= k < |lines| ==> '\n' !in lines[k]
    requires cur.Some? ==> DraftSingleLine(cur.value)
    ensures forall k :: 0 <= k < |ParseFrom(cur, lines)| ==> SingleLine(ParseFrom(cur, lines)[k])
    decreases |lines|
  {
    if lines != [] {
      StepSingleLine(cur, lines[0]);
      ParseFromSingleLine(Step(cur, lines[0]).0, lines[1..]);
    }
  }

  /** The answer is read line by line, so no field of an extracted action,
      its code included, spans more than one line of the answer. */
  lemma ParseActionsSingleLine(response: string)
    ensures forall k :: 0 <= k < |ParseFrom(None, Split(response, '\n'))| ==>
              SingleLine(ParseFrom(None, Split(response, '\n'))[k])
  {
    ParseFromSingleLine(None, Split(response, '\n'));
  }

  /** A draft cut short by the next header without its component or
      description is dropped: nothing is emitted for it. */
  lemma IncompleteDropped(d: Draft, line: string)
    requires !Complete(d)
    requires HeaderType(line).Some?
    ensures Step(Some(d), line).1 == []
    ensures Step(Some(d), line).0 == Some(Draft(HeaderType(line).value, None, None, None))
  {
  }

  /** A three-line block yields exactly one action with the trimmed values. */
  lemma SingleBlock()
    ensures ParseFrom(None, ["ADD_FEATURE: grafik", "Component: Panel ", "Description:  Yeni grafik"])
         == [PanelAction(AddFeature, "Panel", "Yeni grafik", None, Pending)]
  {
    var l0, l1, l2 := "ADD_FEATURE: grafik", "Component: Panel ", "Description:  Yeni grafik";
    var d0 := Draft(AddFeature, None, None, None);
    var d1 := d0.(component := Some("Panel"));
    var d2 := d1.(description := Some("Yeni grafik"));
    HeaderLine(l0);
    ComponentLine(d0, l1);
    DescriptionLine(d1, l2);
    ParseFromCons(None, l0, [l1, l2]);
    ParseFromCons(Some(d0), l1, [l2]);
    ParseFromCons(Some(d1), l2, []);
    assert [l0, l1, l2] == [l0] + [l1, l2];
    assert [l1, l2] == [l1] + [l2];
  }

  lemma ParseFromCons(cur: Option<Draft>, line: string, rest: seq<string>)
    ensures ParseFrom(cur, [line] + rest) == Step(cur, line).1 + ParseFrom(Step(cur, line).0, rest)
  {
    assert ([line] + rest)[1..] == rest;
  }

  lemma HeaderLine(l0: string)
    requires l0 == "ADD_FEATURE: grafik"
    ensures Step(None, l0) == (Some(Draft(AddFeature, None, None, None)), [])
  {
    assert l0[..12] == "ADD_FEATURE:";
  }

  lemma ComponentLine(d: Draft, l1: string)
    requires l1 == "Component: Panel "
    ensures Step(Some(d), l1) == (Some(d.(component := Some("Panel"))), [])
  {
    ComponentText(l1);
  }

  lemma ComponentText(l1: string)
    requires l1 == "Component: Panel "
    ensures HeaderType(l1).None? && StartsWith(l1, "Component:")
    ensures FieldValue(l1, "Component:") == "Panel"
  {
    assert HeaderType(l1).None? by { assert l1[0] == 'C'; }
    assert l1[..10] == "Component:";
    ReplacePrefix(l1, "Component:");
    assert l1[10..] == " Panel ";
    TrimPanel();
  }

  lemma TrimPanel()
    ensures Trim(" Panel ") == "Panel"
  {
    assert " Panel " == " " + "Panel" + " ";
    TrimAround(" ", "Panel", " ");
  }

  lemma DescriptionLine(d: Draft, l2: string)
    requires l2 == "Description:  Yeni grafik"
    ensures Step(Some(d), l2) == (Some(d.(description := Some("Yeni grafik"))), [])
  {
    DescriptionText(l2);
  }

  lemma DescriptionText(l2: string)
    requires l2 == "Description:  Yeni grafik"
    ensures HeaderType(l2).None? && !StartsWith(l2, "Component:") && StartsWith(l2, "Description:")
    ensures FieldValue(l2, "Description:") == "Yeni grafik"
  {
    DescriptionLabel(l2);
    DescriptionValue(l2);
  }

  lemma DescriptionLabel(l2: string)
    requires l2 == "Description:  Yeni grafik"
    ensures HeaderType(l2).None? && !StartsWith(l2, "Component:") && StartsWith(l2, "Description:")
  {
    assert l2[..12] == "Description:";
    TagsExclusive(l2);
    assert HeaderType(l2).None? by { assert l2[0] == 'D'; }
  }

  lemma DescriptionValue(l2: string)
    requires l2 == "Description:  Yeni grafik"
    ensures FieldValue(l2, "Description:") == "Yeni grafik"
  {
    assert l2[..12] == "Description:";
    ReplacePrefix(l2, "Description:");
    assert l2[12..] == "  Yeni grafik";
    TrimYeniGrafik();
  }

  lemma TrimYeniGrafik()
    ensures Trim("  Yeni grafik") == "Yeni grafik"
  {
    assert "  Yeni grafik" == "  " + "Yeni grafik" + "";
    TrimAround("  ", "Yeni grafik", "");
  }
}
