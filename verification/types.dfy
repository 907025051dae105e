/**
 The request and response shapes of the generate endpoint, and the closed
 vocabulary of "unheard" audience tags offered as checkboxes.
 */
module Types {
  import opened Wrappers

  /** The five tags, in the order the form lists them. */
  datatype UnheardContext =
    | TooBusyToTakePart       // 忙しくて参加できていない人
    | NotWorthSpeakingUp      // 意見を言うほどではないと思っている人
    | UnclearOnTheSystem      // 制度や仕組みがよく分からない人
    | RarelyDealsWithCityHall // 普段あまり行政と接点がない人
    | NoneComesToMind         // 特に思い浮かばない

  /** The label shown next to the checkbox and sent in the request. */
  function Label(c: UnheardContext): string
  {
    match c
    case TooBusyToTakePart => "忙しくて参加できていない人"
    case NotWorthSpeakingUp => "意見を言うほどではないと思っている人"
    case UnclearOnTheSystem => "制度や仕組みがよく分からない人"
    case RarelyDealsWithCityHall => "普段あまり行政と接点がない人"
    case NoneComesToMind => "特に思い浮かばない"
  }

  const ContextOptions: seq<UnheardContext> :=
    [TooBusyToTakePart, NotWorthSpeakingUp, UnclearOnTheSystem, RarelyDealsWithCityHall, NoneComesToMind]

  /** The options list every tag exactly once, and distinct tags have distinct labels. */
  lemma VocabularyClosed(c: UnheardContext, d: UnheardContext)
    ensures |ContextOptions| == 5
    ensures c in ContextOptions
    ensures forall i, j :: 0 <= i < j < |ContextOptions| ==> ContextOptions[i] != ContextOptions[j]
    ensures Label(c) == Label(d) ==> c == d
  {
  }

  datatype Mode = Default | LoweredEntry

  /** The JSON body: `unheard_contexts` may be absent (`None`). */
  datatype GenerateRequest = GenerateRequest(
    theme: string,
    background: string,
    unheardContexts: Option<seq<string>>)

  datatype GenerateResponse = GenerateResponse(mode: Mode, draft: string)
}
