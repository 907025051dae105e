/**
 The form page as a state machine. Each event handler is one atomic transition of
 an immutable form state; the result of `fetch` is an input of the transition.
 */
module Page {
  import opened Wrappers
  import opened Types
  import opened Strings
  import opened Collections
  import opened Route

  /** The page's React state. `selected` is the `Set` of ticked tags, in insertion order. */
  datatype FormState = FormState(
    theme: string,
    background: string,
    selected: seq<UnheardContext>,
    isLoading: bool,
    draft: Option<string>)

  const Initial := FormState("", "", [], false, None)

  /** A `Set` never holds a tag twice. */
  predicate Valid(st: FormState)
  {
    NoDuplicates(st.selected)
  }

  /** The form is shown while there is no draft, the output once there is one. */
  predicate FormVisible(st: FormState)
  {
    st.draft == None
  }

  predicate OutputVisible(st: FormState)
  {
    st.draft != None
  }

  /** Typing in the theme field. */
  function EditTheme(st: FormState, text: string): (r: FormState)
    ensures r.theme == text
    ensures r.(theme := st.theme) == st
  {
    st.(theme := text)
  }

  /** Typing in the background field. */
  function EditBackground(st: FormState, text: string): (r: FormState)
    ensures r.background == text
    ensures r.(background := st.background) == st
  {
    st.(background := text)
  }

  /** Ticking or unticking a tag. */
  function ToggleContext(st: FormState, c: UnheardContext): (r: FormState)
    ensures c in r.selected <==> c !in st.selected
    ensures forall d :: d != c ==> (d in r.selected <==> d in st.selected)
    ensures r.(selected := st.selected) == st
    ensures Valid(st) ==> Valid(r)
    // a newly ticked tag goes to the end of the insertion order
    ensures c !in st.selected ==> r.selected == st.selected + [c]
  {
    if c in st.selected then st.(selected := Remove(st.selected, c))
    else st.(selected := Add(st.selected, c))
  }

  /** Toggling a tag twice restores the selection, up to its insertion order: a tag
      that was ticked comes back at the end. From a state where it was not ticked
      the state is restored exactly. */
  lemma {:induction false} ToggleTwice(st: FormState, c: UnheardContext)
    requires Valid(st)
    ensures var r := ToggleContext(ToggleContext(st, c), c);
            && multiset(r.selected) == multiset(st.selected)
            && r.(selected := st.selected) == st
            && (c !in st.selected ==> r == st)
            // a tag that was ticked moves to the end
            && (c in st.selected ==> r.selected == Remove(st.selected, c) + [c])
  {
    var s := st.selected;
    if c in s {
      OccursOnce(s, c);
      assert multiset(Remove(s, c) + [c]) == multiset(s)[c := 0] + multiset{c};
    } else {
      RemoveAppended(s, c);
    }
  }

  /** A tag that is unticked and ticked again is sent last, after the other ticked
      tags in their order. */
  lemma RetickedTagSentLast(st: FormState, c: UnheardContext)
    requires Valid(st) && c in st.selected
    ensures var tags := BuildRequest(ToggleContext(ToggleContext(st, c), c)).unheardContexts.value;
            && |tags| == |st.selected|
            && tags[|tags| - 1] == Label(c)
            && forall i :: 0 <= i < |tags| - 1 ==> tags[i] == Label(Remove(st.selected, c)[i])
  {
    ToggleTwice(st, c);
    var sel := ToggleContext(ToggleContext(st, c), c).selected;
    var rest := Remove(st.selected, c);
    assert sel == rest + [c];
    assert |sel| == |st.selected| by {
      assert |multiset(sel)| == |multiset(st.selected)|;
    }
    var tags := BuildRequest(ToggleContext(ToggleContext(st, c), c)).unheardContexts.value;
    assert tags[|tags| - 1] == Label(sel[|sel| - 1]);
    forall i | 0 <= i < |tags| - 1 ensures tags[i] == Label(rest[i]) {
      assert sel[i] == rest[i];
    }
  }

  /** The labels of the ticked tags, in insertion order: `Array.from(selectedContexts)`. */
  function ContextLabels(cs: seq<UnheardContext>): (ls: seq<string>)
    ensures |ls| == |cs|
    ensures forall i :: 0 <= i < |cs| ==> ls[i] == Label(cs[i])
    ensures forall x :: x in ls <==> exists c :: c in cs && Label(c) == x
    ensures NoDuplicates(cs) ==> NoDuplicates(ls)
  {
    var ls := seq(|cs|, i requires 0 <= i < |cs| => Label(cs[i]));
    assert forall x :: x in ls <==> exists c :: c in cs && Label(c) == x by {
      forall x ensures x in ls <==> exists c :: c in cs && Label(c) == x {
        if x in ls {
          var i :| 0 <= i < |ls| && ls[i] == x;
          assert cs[i] in cs && Label(cs[i]) == x;
        }
        if exists c :: c in cs && Label(c) == x {
          var c :| c in cs && Label(c) == x;
          var i :| 0 <= i < |cs| && cs[i] == c;
          assert ls[i] == x;
        }
      }
    }
    assert NoDuplicates(cs) ==> NoDuplicates(ls) by {
      if NoDuplicates(cs) {
        forall i, j | 0 <= i < j < |ls| ensures ls[i] != ls[j] {
          VocabularyClosed(cs[i], cs[j]);
        }
      }
    }
    ls
  }

  /** The request `handleGenerate` sends. */
  function BuildRequest(st: FormState): (req: GenerateRequest)
    ensures req.theme == Trim(st.theme) && req.background == Trim(st.background)
    ensures req.unheardContexts.Some?
    ensures |req.unheardContexts.value| == |st.selected|
    // `Array.from` lists the tags in insertion order
    ensures forall i :: 0 <= i < |st.selected| ==> req.unheardContexts.value[i] == Label(st.selected[i])
    ensures forall c :: Label(c) in req.unheardContexts.value <==> c in st.selected
    ensures Valid(st) ==> NoDuplicates(req.unheardContexts.value)
    // the server picks `lowered_entry` exactly when some tag is ticked
    ensures SelectMode(req.unheardContexts) == LoweredEntry <==> |st.selected| > 0
  {
    var labels := ContextLabels(st.selected);
    assert forall c :: Label(c) in labels ==> c in st.selected by {
      forall c | Label(c) in labels ensures c in st.selected {
        var d :| d in st.selected && Label(d) == Label(c);
        VocabularyClosed(c, d);
      }
    }
    GenerateRequest(Trim(st.theme), Trim(st.background), Some(labels))
  }

  /** `handleGenerate`'s own guard: both fields have something besides whitespace. */
  predicate CanSubmit(st: FormState)
  {
    Trim(st.theme) != "" && Trim(st.background) != ""
  }

  /** The generate button's `disabled` is the negation of this. */
  predicate GenerateEnabled(st: FormState)
  {
    !st.isLoading && CanSubmit(st)
  }

  lemma GenerateEnabledIff(st: FormState)
    ensures GenerateEnabled(st) <==>
            !st.isLoading && !AllWhitespace(st.theme) && !AllWhitespace(st.background)
  {
  }

  /** A state together with the request a transition sent, if any. */
  datatype Step = Step(state: FormState, request: Option<GenerateRequest>)

  /** `handleGenerate` up to the `fetch`: the guard, then loading starts and the
      request is built. */
  function StartGenerate(st: FormState): (s: Step)
    ensures s.request.None? <==> AllWhitespace(st.theme) || AllWhitespace(st.background)
    ensures s.request.None? ==> s.state == st
    ensures s.request.Some? ==> s.state == st.(isLoading := true) && s.request.value == BuildRequest(st)
  {
    if !CanSubmit(st) then Step(st, None)
    else Step(st.(isLoading := true), Some(BuildRequest(st)))
  }

  /** What `fetch` and `response.json()` delivered: a draft, or a failure of any kind
      (network error, a status that is not ok, an unreadable body). */
  datatype FetchOutcome = Delivered(draft: string) | Failed

  /** How the page reads a response of the generate endpoint. */
  function Receive(resp: HttpResponse): (o: FetchOutcome)
    ensures o.Delivered? <==> 200 <= resp.status < 300 && resp.body.Generated?
    ensures o.Delivered? ==> o.draft == resp.body.response.draft
  {
    match resp.body
    case Generated(g) => if 200 <= resp.status < 300 then Delivered(g.draft) else Failed
    case Error(_) => Failed
  }

  /** `handleGenerate` after the `fetch`: the draft is taken on success, and loading
      ends whatever happened. */
  function FinishGenerate(st: FormState, outcome: FetchOutcome): (r: FormState)
    ensures !r.isLoading
    ensures outcome.Delivered? ==> r.draft == Some(outcome.draft)
    ensures outcome.Failed? ==> r.draft == st.draft
    ensures r.(isLoading := st.isLoading, draft := st.draft) == st
  {
    match outcome
    case Delivered(d) => st.(isLoading := false, draft := Some(d))
    case Failed => st.(isLoading := false)
  }

  /** The whole of `handleGenerate` as one transition. */
  function HandleGenerate(st: FormState, outcome: FetchOutcome): (s: Step)
    ensures s.request.None? <==> AllWhitespace(st.theme) || AllWhitespace(st.background)
    ensures s.request.Some? ==> s.request.value == BuildRequest(st)
    ensures s.request.None? ==> s.state == st
    ensures s.request.Some? ==> !s.state.isLoading
    ensures s.request.Some? && outcome.Delivered? ==> s.state.draft == Some(outcome.draft)
    ensures outcome.Failed? ==> s.state.draft == st.draft
    // the form's input is kept, so the user may retry
    ensures s.state.theme == st.theme && s.state.background == st.background
    ensures s.state.selected == st.selected
  {
    var started := StartGenerate(st);
    if started.request.None? then started
    else Step(FinishGenerate(started.state, outcome), started.request)
  }

  /** Against the real endpoint, a submitted form ends showing the draft for its
      trimmed theme, no longer loading. */
  lemma GenerateEndToEnd(st: FormState)
    requires !AllWhitespace(st.theme) && !AllWhitespace(st.background)
    ensures var s := HandleGenerate(st, Receive(Post(StartGenerate(st).request)));
            && s.state.draft == Some(Draft(Trim(st.theme)))
            && OutputVisible(s.state) && !s.state.isLoading
  {
  }

  /** `handleCopy`: the text written to the clipboard, if any. `!draft` holds for no
      draft and for the empty draft. */
  function CopyText(st: FormState): (r: Option<string>)
    ensures r.Some? <==> st.draft.Some? && st.draft.value != ""
    ensures r.Some? ==> r.value == st.draft.value
  {
    match st.draft
    case None => None
    case Some(d) => if d == "" then None else Some(d)
  }

  /** The reset button. */
  function Reset(st: FormState): (r: FormState)
    ensures r.draft == None && r.theme == "" && r.background == "" && r.selected == []
    ensures r.isLoading == st.isLoading
    ensures Valid(r) && FormVisible(r) && !GenerateEnabled(r)
  {
    FormState("", "", [], st.isLoading, None)
  }

  /** The user's actions on the page. */
  datatype Event =
    | TypeTheme(text: string)
    | TypeBackground(text: string)
    | Tick(context: UnheardContext)
    | Generate(outcome: FetchOutcome)
    | Copy
    | StartOver

  /** One event. The form is shown until a generate delivers a draft and again after
      a reset; every other event keeps the section that was shown. */
  function Apply(st: FormState, e: Event): (r: FormState)
    ensures Valid(st) && !st.isLoading ==> Valid(r) && !r.isLoading
    // copying only writes to the clipboard
    ensures e.Copy? ==> r == st
    ensures e.StartOver? ==> FormVisible(r)
    ensures e.Generate? && e.outcome.Delivered? && CanSubmit(st) ==> OutputVisible(r)
    ensures !e.StartOver? && !(e.Generate? && e.outcome.Delivered? && CanSubmit(st)) ==>
            (FormVisible(r) <==> FormVisible(st))
  {
    match e
    case TypeTheme(text) => EditTheme(st, text)
    case TypeBackground(text) => EditBackground(st, text)
    case Tick(c) => ToggleContext(st, c)
    case Generate(outcome) => HandleGenerate(st, outcome).state
    case Copy => st
    case StartOver => Reset(st)
  }

  /** Whether the page renders the control for `e`: typing, ticking and generate sit
      in the form section, copy and reset in the output section. */
  predicate Offered(st: FormState, e: Event)
  {
    if e.Copy? || e.StartOver? then OutputVisible(st) else FormVisible(st)
  }

  /** A sequence of user actions. An action whose control is not on screen cannot
      happen and leaves the state as it is. */
  function Run(st: FormState, events: seq<Event>): FormState
    decreases |events|
  {
    if |events| == 0 then st
    else Run(if Offered(st, events[0]) then Apply(st, events[0]) else st, events[1..])
  }

  /** From the initial state, after any sequence of handled events, no tag is held
      twice and nothing is loading. */
  lemma {:induction false} RunKeepsInvariant(st: FormState, events: seq<Event>)
    requires Valid(st) && !st.isLoading
    ensures Valid(Run(st, events)) && !Run(st, events).isLoading
    decreases |events|
  {
    if |events| > 0 {
      var next := if Offered(st, events[0]) then Apply(st, events[0]) else st;
      assert Valid(next) && !next.isLoading;
      RunKeepsInvariant(next, events[1..]);
    }
  }

  lemma ReachableStatesValid(events: seq<Event>)
    ensures Valid(Run(Initial, events)) && !Run(Initial, events).isLoading
  {
    RunKeepsInvariant(Initial, events);
  }
}
