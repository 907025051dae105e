/**
 The generate endpoint: it picks a mode from the audience tags and returns a fixed
 draft in which only the theme is filled in.
 */
module Route {
  import opened Wrappers
  import opened Types
  import opened Strings

  /** `lowered_entry` when tags were sent and there is at least one; total. */
  function SelectMode(contexts: Option<seq<string>>): (m: Mode)
    ensures m == LoweredEntry <==> contexts.Some? && |contexts.value| > 0
    ensures m == Default <==> contexts == None || contexts == Some([])
  {
    match contexts
    case None => Default
    case Some(cs) => if |cs| > 0 then LoweredEntry else Default
  }

  // The fixed lines of the draft. The draft is a template literal, so its text is
  // these lines joined by line feeds.

  const Heading := "## 問いの構造"
  const ExplanationLead := "このプロセスは、"
  const ExplanationClose := "日常の経験や感じ方を思い出してもらう構成になっています。"
  const Separator := "---"
  const Question1Tail := "について、最近利用したことはありますか？"
  const Question1Options := [
    "- よく利用している",
    "- たまに利用している",
    "- ほとんど利用していない",
    "- 名前は知っているが、使ったことはない"]
  const Question2Text := "利用したときの印象に、近いものがあれば選んでください（複数可）"
  const Question2Options := [
    "- 使いやすかった",
    "- なんとなく入りづらかった",
    "- 自分向けではない気がした",
    "- 特に印象はない"]
  const NoNeedToWrite := "（書かなくても大丈夫です）"
  const Question3Lines := [
    "もしよければ、「こうだったら、もう少し関わるかも」と思うことがあれば",
    "自由に書いてください。",
    NoNeedToWrite]
  const NoteLines := [
    "※ この問いは、意見を評価するためのものではありません。",
    "日常の感じ方を知るための下書きです。"]

  /** The heading of question `k`, numbered with a circled digit. */
  function QuestionHeader(k: nat): string
    requires 1 <= k <= 3
  {
    "### 問い" + (if k == 1 then "①" else if k == 2 then "②" else "③")
  }

  predicate IsQuestionHeader(line: string)
  {
    line == QuestionHeader(1) || line == QuestionHeader(2) || line == QuestionHeader(3)
  }

  /** A markdown list item: an answer option. */
  predicate IsOptionLine(line: string)
  {
    |line| >= 2 && line[0] == '-' && line[1] == ' '
  }

  function ExplanationLine(theme: string): string
  {
    ExplanationLead + theme + "について、"
  }

  function Question1Text(theme: string): string
  {
    theme + Question1Tail
  }

  /** The draft, line by line; line `i` is line `13 + i` of the route's source. The
      theme is spliced into the explanation (line 2) and into question 1 (line 9). */
  function DraftLines(theme: string): (ls: seq<string>)
    ensures |ls| == 39
    ensures ls[2] == ExplanationLine(theme) && ls[9] == Question1Text(theme)
  {
    var ls :=
    [ Heading,
      "",
      ExplanationLine(theme),
      ExplanationClose,
      "",
      Separator,
      "",
      QuestionHeader(1),
      "",
      Question1Text(theme),
      "",
      Question1Options[0],
      Question1Options[1],
      Question1Options[2],
      Question1Options[3],
      "",
      Separator,
      "",
      QuestionHeader(2),
      "",
      Question2Text,
      "",
      Question2Options[0],
      Question2Options[1],
      Question2Options[2],
      Question2Options[3],
      "",
      Separator,
      "",
      QuestionHeader(3),
      "",
      Question3Lines[0],
      Question3Lines[1],
      Question3Lines[2],
      "",
      Separator,
      "",
      NoteLines[0],
      NoteLines[1] ];
    ls
  }

  /** Exactly three question headers, in the order 1, 2, 3. */
  lemma DraftHeaders(theme: string)
    ensures var ls := DraftLines(theme);
            && ls[7] == QuestionHeader(1) && ls[18] == QuestionHeader(2) && ls[29] == QuestionHeader(3)
            && forall i :: 0 <= i < |ls| ==> (IsQuestionHeader(ls[i]) <==> i == 7 || i == 18 || i == 29)
  {
  }

  /** A separator after the explanation and after each question block, and nowhere else. */
  lemma DraftSeparators(theme: string)
    ensures var ls := DraftLines(theme);
            forall i :: 0 <= i < |ls| ==> (ls[i] == Separator <==> i == 5 || i == 16 || i == 27 || i == 35)
  {
  }

  /** Four options each for questions 1 and 2, in their fixed order. Apart from
      question 1's text, which starts with the theme, no other line is an option. */
  lemma DraftOptions(theme: string)
    ensures var ls := DraftLines(theme);
            && ls[11..15] == Question1Options && ls[22..26] == Question2Options
            && forall i :: 0 <= i < |ls| && i != 9 ==> (IsOptionLine(ls[i]) <==> 11 <= i < 15 || 22 <= i < 26)
  {
    OptionsOfQuestion1(theme);
    OptionsOfQuestion2(theme);
    NoOptionsBeforeQuestion1Text(theme);
    OptionLinesAfterQuestion1Text(theme);
  }

  lemma OptionsOfQuestion1(theme: string)
    ensures DraftLines(theme)[11..15] == Question1Options
  {
    var ls := DraftLines(theme);
    assert ls[11] == Question1Options[0] && ls[12] == Question1Options[1];
    assert ls[13] == Question1Options[2] && ls[14] == Question1Options[3];
    assert ls[11..15] == [ls[11], ls[12], ls[13], ls[14]];
    assert Question1Options == [Question1Options[0], Question1Options[1], Question1Options[2], Question1Options[3]];
  }

  lemma OptionsOfQuestion2(theme: string)
    ensures DraftLines(theme)[22..26] == Question2Options
  {
  }

  lemma NoOptionsBeforeQuestion1Text(theme: string)
    ensures forall i :: 0 <= i < 9 ==> !IsOptionLine(DraftLines(theme)[i])
  {
    assert ExplanationLine(theme)[0] == ExplanationLead[0];
  }

  lemma OptionLinesAfterQuestion1Text(theme: string)
    ensures forall i :: 9 < i < 39 ==> (IsOptionLine(DraftLines(theme)[i]) <==> 11 <= i < 15 || 22 <= i < 26)
  {
  }

  /** Question 3 is free text: its block has no options and closes with the remark
      that there is no need to write anything. The two-line note follows the last
      separator and ends the draft. */
  lemma DraftClosing(theme: string)
    ensures var ls := DraftLines(theme);
            && ls[31..34] == Question3Lines && ls[33] == NoNeedToWrite
            && (forall i :: 29 <= i < 35 ==> !IsOptionLine(ls[i]))
            && ls[37..] == NoteLines
  {
    OptionLinesAfterQuestion1Text(theme);
    LinesOfQuestion3(theme);
    LinesOfNote(theme);
  }

  lemma LinesOfQuestion3(theme: string)
    ensures DraftLines(theme)[31..34] == Question3Lines
  {
  }

  lemma LinesOfNote(theme: string)
    ensures DraftLines(theme)[37..] == NoteLines
  {
  }

  /** A theme without line breaks adds none. */
  lemma DraftLinesWithoutBreaks(theme: string)
    requires NoLineBreak(theme)
    ensures LinesWithoutBreaks(DraftLines(theme))
  {
    NoBreaksInFirstLines(theme);
    NoBreaksInMiddleLines(theme);
    NoBreaksInLastLines(theme);
  }

  lemma NoBreaksInFirstLines(theme: string)
    requires NoLineBreak(theme)
    ensures forall k :: 0 <= k < 13 ==> NoLineBreak(DraftLines(theme)[k])
  {
  }

  lemma NoBreaksInMiddleLines(theme: string)
    ensures forall k :: 13 <= k < 26 ==> NoLineBreak(DraftLines(theme)[k])
  {
  }

  lemma NoBreaksInLastLines(theme: string)
    ensures forall k :: 26 <= k < 39 ==> NoLineBreak(DraftLines(theme)[k])
  {
  }

  /** The draft text. */
  function Draft(theme: string): string
  {
    JoinLines(DraftLines(theme))
  }

  /** Apart from the two lines that carry it, no line depends on the theme. */
  lemma OnlyTwoLinesCarryTheme(t1: string, t2: string, i: nat)
    requires i < 39 && i != 2 && i != 9
    ensures DraftLines(t1)[i] == DraftLines(t2)[i]
  {
  }

  /** With a theme that has no line break, the lines of the draft text are exactly
      `DraftLines`: so the text has exactly the structure `DraftLines` promises. */
  lemma {:induction false} DraftTextLines(theme: string)
    requires NoLineBreak(theme)
    ensures SplitLines(Draft(theme)) == DraftLines(theme)
  {
    DraftLinesWithoutBreaks(theme);
    SplitJoin(DraftLines(theme));
  }

  /** The theme occurs verbatim in the draft text: first in the explanation, then,
      later, at the start of question 1. */
  lemma {:induction false} ThemeVerbatim(theme: string)
    ensures var d, ls := Draft(theme), DraftLines(theme);
            var p, q := LineStart(ls, 2) + |ExplanationLead|, LineStart(ls, 9);
            p + |theme| < q && OccursAt(d, p, theme) && OccursAt(d, q, theme)
  {
    ThemeInLines(DraftLines(theme), theme);
  }

  lemma {:induction false} ThemeInLines(ls: seq<string>, theme: string)
    requires |ls| == 39 && ls[2] == ExplanationLine(theme) && ls[9] == Question1Text(theme)
    ensures var d := JoinLines(ls);
            var p, q := LineStart(ls, 2) + |ExplanationLead|, LineStart(ls, 9);
            p + |theme| < q && OccursAt(d, p, theme) && OccursAt(d, q, theme)
  {
    LineAt(ls, 2);
    LineAt(ls, 9);
    LineStartMonotone(ls, 2, 9);
    assert OccursAt(ls[2], |ExplanationLead|, theme) by {
      assert ls[2][|ExplanationLead|..|ExplanationLead| + |theme|] == theme;
    }
    assert OccursAt(ls[9], 0, theme) by {
      assert ls[9][..|theme|] == theme;
    }
    OccursWithin(JoinLines(ls), LineStart(ls, 2), ls[2], |ExplanationLead|, theme);
    OccursWithin(JoinLines(ls), LineStart(ls, 9), ls[9], 0, theme);
  }

  /** In the draft text the explanation, the three headers, the last separator and
      both lines of the note appear verbatim, in that order. */
  lemma {:induction false} DraftOrder(theme: string)
    ensures var d, ls := Draft(theme), DraftLines(theme);
            && LineStart(ls, 2) < LineStart(ls, 7) < LineStart(ls, 18) < LineStart(ls, 29)
               < LineStart(ls, 35) < LineStart(ls, 37) < LineStart(ls, 38)
            && OccursAt(d, LineStart(ls, 2), ExplanationLine(theme))
            && OccursAt(d, LineStart(ls, 7), QuestionHeader(1))
            && OccursAt(d, LineStart(ls, 18), QuestionHeader(2))
            && OccursAt(d, LineStart(ls, 29), QuestionHeader(3))
            && OccursAt(d, LineStart(ls, 35), Separator)
            && OccursAt(d, LineStart(ls, 37), NoteLines[0])
            && OccursAt(d, LineStart(ls, 38), NoteLines[1])
  {
    DraftHeaders(theme);
    DraftSeparators(theme);
    DraftClosing(theme);
    OrderInLines(DraftLines(theme), theme);
  }

  lemma {:induction false} OrderInLines(ls: seq<string>, theme: string)
    requires |ls| == 39 && ls[2] == ExplanationLine(theme)
    requires ls[7] == QuestionHeader(1) && ls[18] == QuestionHeader(2) && ls[29] == QuestionHeader(3)
    requires ls[35] == Separator && ls[37] == NoteLines[0] && ls[38] == NoteLines[1]
    ensures var d := JoinLines(ls);
            && LineStart(ls, 2) < LineStart(ls, 7) < LineStart(ls, 18) < LineStart(ls, 29)
               < LineStart(ls, 35) < LineStart(ls, 37) < LineStart(ls, 38)
            && OccursAt(d, LineStart(ls, 2), ExplanationLine(theme))
            && OccursAt(d, LineStart(ls, 7), QuestionHeader(1))
            && OccursAt(d, LineStart(ls, 18), QuestionHeader(2))
            && OccursAt(d, LineStart(ls, 29), QuestionHeader(3))
            && OccursAt(d, LineStart(ls, 35), Separator)
            && OccursAt(d, LineStart(ls, 37), NoteLines[0])
            && OccursAt(d, LineStart(ls, 38), NoteLines[1])
  {
    LineStartMonotone(ls, 2, 7);
    LineStartMonotone(ls, 7, 18);
    LineStartMonotone(ls, 18, 29);
    LineStartMonotone(ls, 29, 35);
    LineStartMonotone(ls, 35, 37);
    LineStartMonotone(ls, 37, 38);
    LineAt(ls, 2);
    LineAt(ls, 7);
    LineAt(ls, 18);
    LineAt(ls, 29);
    LineAt(ls, 35);
    LineAt(ls, 37);
    LineAt(ls, 38);
  }

  datatype ResponseBody = Generated(response: GenerateResponse) | Error(error: string)

  datatype HttpResponse = HttpResponse(status: nat, body: ResponseBody)

  const FailureMessage := "生成に失敗しました"

  /** `POST /api/generate`. `body` is `None` when reading the JSON body throws. */
  function Post(body: Option<GenerateRequest>): (r: HttpResponse)
    ensures r.status == 200 <==> body.Some?
    ensures r.status == 200 <==> r.body.Generated?
    ensures body.Some? ==> r.body.response.mode == SelectMode(body.value.unheardContexts)
    ensures body.Some? ==> r.body.response.draft == Draft(body.value.theme)
    ensures body.None? ==> r == HttpResponse(500, Error(FailureMessage))
  {
    match body
    case None => HttpResponse(500, Error(FailureMessage))
    case Some(req) =>
      HttpResponse(200, Generated(GenerateResponse(SelectMode(req.unheardContexts), Draft(req.theme))))
  }

  /** The draft depends on the theme alone: not on the background, the tags, or the
      mode they select. */
  lemma DraftIgnoresRestOfRequest(a: GenerateRequest, b: GenerateRequest)
    requires a.theme == b.theme
    ensures Post(Some(a)).body.response.draft == Post(Some(b)).body.response.draft
  {
  }

  /** Selecting any tag switches the mode, yet the draft is word for word the same. */
  lemma ModeLeavesWordingAlone(theme: string, background: string, tags: seq<string>)
    requires |tags| > 0
    ensures var plain := Post(Some(GenerateRequest(theme, background, Some([]))));
            var lowered := Post(Some(GenerateRequest(theme, background, Some(tags))));
            && plain.body.response.mode == Default
            && lowered.body.response.mode == LoweredEntry
            && plain.body.response.draft == lowered.body.response.draft
  {
  }
}
