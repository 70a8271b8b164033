/**
 The query editor and the parent that mirrors its text.

 The editor owns its buffer and sends each text up; the parent keeps it as the current
 version of the document and hands it back later as a property. The editor has to tell its
 own text arriving late from a text somebody else wrote, and it does so by remembering the
 texts that are still out (`echoes`).
 */
module EditorEcho {
  import opened Common

  // ---------------------------------------------------------------- one editor

  /** The editor's state, and everything it has sent up so far. */
  datatype Editor = Editor(buffer: string, documentId: Option<string>, echoes: seq<string>, sent: seq<string>)

  /** The index of the first occurrence. */
  function FirstIndex(xs: seq<string>, x: string): (i: nat)
    requires x in xs
    ensures i < |xs| && xs[i] == x
    ensures forall j :: 0 <= j < i ==> xs[j] != x
  {
    if xs[0] == x then 0 else 1 + FirstIndex(xs[1..], x)
  }

  /** The model took `text`, and the change was recorded before it went up. */
  function Reported(e: Editor, text: string): Editor {
    e.(buffer := text, echoes := e.echoes + [text], sent := e.sent + [text])
  }

  /** The reconcile effect, run on one rendered `value` of document `documentId`. */
  function Reconciled(e: Editor, value: string, documentId: Option<string>): Editor {
    if documentId != e.documentId then
      var cleared := e.(documentId := documentId, echoes := []);
      if value != e.buffer then Reported(cleared, value) else cleared
    else if value in e.echoes then
      e.(echoes := e.echoes[FirstIndex(e.echoes, value) + 1..])
    else
      Reported(e.(echoes := []), value)
  }

  /** The component's mutable state: the model, the echoes ref and the calls made to the parent. */
  class QueryEditor {
    var text: string
    var echoesDocument: Option<string>
    var echoValues: seq<string>
    var sentUp: seq<string>

    ghost function View(): Editor
      reads this
    {
      Editor(text, echoesDocument, echoValues, sentUp)
    }

    constructor (value: string, documentId: Option<string>)
      ensures View() == Editor(value, documentId, [], [])
    {
      text, echoesDocument, echoValues, sentUp := value, documentId, [], [];
    }

    /** Every model change arrives here, and the host may report an absent text. */
    method HandleEditorChange(val: Option<string>)
      modifies `echoValues, `sentUp
      ensures var reported := if val.Some? then val.value else "";
              echoValues == old(echoValues) + [reported] && sentUp == old(sentUp) + [reported]
    {
      var newValue := if val.Some? then val.value else "";
      echoValues := echoValues + [newValue];
      sentUp := sentUp + [newValue];
    }

    /** A write to the model, by a key or by code. The model reports it at once. */
    method SetValue(newText: string)
      modifies this
      ensures View() == Reported(old(View()), newText)
    {
      text := newText;
      HandleEditorChange(Some(newText));
    }

    method RunEffect(value: string, documentId: Option<string>)
      modifies this
      ensures View() == Reconciled(old(View()), value, documentId)
    {
      if documentId != echoesDocument {
        echoesDocument, echoValues := documentId, [];
        if value != text {
          SetValue(value);
        }
        return;
      }
      if value in echoValues {
        var echoIndex := FirstIndex(echoValues, value);
        echoValues := echoValues[echoIndex + 1..];
        return;
      }
      echoValues := [];
      SetValue(value);
    }
  }

  /**
   A new document's text is authoritative, and no text of the old document is waited for. It
   goes up, and is waited for, exactly if the model did not hold it already.
   */
  lemma SwitchIsAuthoritative(e: Editor, value: string, documentId: Option<string>)
    requires documentId != e.documentId
    ensures var after := Reconciled(e, value, documentId);
            && after.buffer == value && after.documentId == documentId
            && (after.echoes == [value] <==> value != e.buffer) && (after.echoes == [] <==> value == e.buffer)
            && (after.sent == e.sent + [value] <==> value != e.buffer) && (after.sent == e.sent <==> value == e.buffer)
  {
  }

  /**
   On the same document, exactly which values reach the buffer: all but the outstanding ones
   that differ from it. Whatever is not outstanding lands, goes up and is waited for; of the
   outstanding ones the first equal to it and all before it are dropped.
   */
  lemma SameDocumentLandsIff(e: Editor, value: string)
    ensures var after := Reconciled(e, value, e.documentId);
            && (after.buffer == value <==> value !in e.echoes || e.buffer == value)
            && (after.buffer == value || after.buffer == e.buffer)
            && (value !in e.echoes ==> after.echoes == [value] && after.sent == e.sent + [value])
            && (value in e.echoes ==>
                  && after.sent == e.sent && after.buffer == e.buffer
                  && exists older: seq<string> :: value !in older && e.echoes == older + [value] + after.echoes)
  {
    if value in e.echoes {
      var i := FirstIndex(e.echoes, value);
      assert value !in e.echoes[..i];
      assert e.echoes == e.echoes[..i] + [value] + e.echoes[i + 1..];
    }
  }

  // ---------------------------------------------------------------- editor and parent

  /**
   The editor together with its parent.

   `versions` are the texts the parent has held for the document on screen, oldest first; a
   text the editor sends up becomes the newest. `shown` is the version of the last committed
   render, `due` says that render's effect has not run yet, and `depends` is the value in the
   effect's dependency list, which is what keeps it from running again on an equal value.
   `foreign` is the newest version that somebody other than the editor wrote.
   */
  datatype Session = Session(
    editor: Editor,
    document: Option<string>,
    versions: seq<string>,
    shown: nat,
    due: bool,
    depends: string,
    foreign: nat)

  datatype Event =
    | Type(text: string)                                // the user, or Format and Clear
    | Commit(version: nat)                              // a render of that version, skipping older ones
    | RunEffect                                         // the effect of the last render
    | WriteOutside(text: string)                        // history, saved list, generated statement
    | SwitchTo(documentId: Option<string>, text: string) // another tab comes to the front

  function Start(text: string, document: Option<string>): Session {
    Session(Editor(text, document, [], []), document, [text], 0, false, text, 0)
  }

  /** The first version the effect has not dealt with. */
  function Covered(s: Session): nat {
    if s.due then s.shown else s.shown + 1
  }

  /** No foreign text is still on its way to the buffer. */
  predicate Landed(s: Session) {
    Covered(s) > s.foreign
  }

  /** Neither an outstanding text nor the value the effect last ran on. */
  predicate Fresh(s: Session, text: string) {
    text !in s.editor.echoes && text != s.depends
  }

  /**
   Renders follow the parent's versions in order and an effect runs before the next render.
   Nobody types, writes or switches while a foreign text is on its way, and a foreign text
   written into the same document is fresh.
   */
  predicate Enabled(s: Session, event: Event) {
    match event
    case Type(_) => Landed(s)
    case Commit(version) => !s.due && s.shown <= version < |s.versions|
    case RunEffect => s.due && s.shown < |s.versions|
    case WriteOutside(text) => Landed(s) && Fresh(s, text)
    case SwitchTo(documentId, _) => Landed(s) && !s.due && documentId != s.document
  }

  /** The editor moved to `after`, and the parent took what it sent meanwhile. */
  function Delivered(s: Session, after: Editor): Session
    requires |s.editor.sent| <= |after.sent|
  {
    s.(editor := after, versions := s.versions + after.sent[|s.editor.sent|..])
  }

  function Step(s: Session, event: Event): Session
    requires Enabled(s, event)
  {
    match event
    case Type(text) => Delivered(s, Reported(s.editor, text))
    case Commit(version) =>
      s.(shown := version, due := s.versions[version] != s.depends, depends := s.versions[version])
    case RunEffect =>
      Delivered(s, Reconciled(s.editor, s.versions[s.shown], s.document)).(due := false)
    case WriteOutside(text) => s.(versions := s.versions + [text], foreign := |s.versions|)
    case SwitchTo(documentId, text) =>
      s.(document := documentId, versions := [text], shown := 0, due := true, depends := text, foreign := 0)
  }

  predicate Possible(s: Session, events: seq<Event>)
    decreases |events|
  {
    events == [] || (Enabled(s, events[0]) && Possible(Step(s, events[0]), events[1..]))
  }

  function After(s: Session, events: seq<Event>): Session
    requires Possible(s, events)
    decreases |events|
  {
    if events == [] then s else After(Step(s, events[0]), events[1..])
  }

  /** What was written last, by whomever: read off the events alone. */
  function LastWritten(text: string, events: seq<Event>): string
    decreases |events|
  {
    if events == [] then text
    else
      var now := match events[0]
        case Type(t) => t
        case WriteOutside(t) => t
        case SwitchTo(_, t) => t
        case _ => text;
      LastWritten(now, events[1..])
  }

  predicate WellFormed(s: Session) {
    s.shown < |s.versions| && s.foreign < |s.versions| && s.depends == s.versions[s.shown]
  }

  /** The versions not yet returned are how the echoes end, and the buffer is the newest version. */
  ghost predicate InStep(s: Session)
    requires WellFormed(s)
  {
    && s.editor.documentId == s.document
    && EndsWith(s.editor.echoes, s.versions[Covered(s)..])
    && s.editor.buffer == s.versions[|s.versions| - 1]
  }

  /** The newest version is foreign, and the effect will recognise it as such. */
  ghost predicate Incoming(s: Session)
    requires WellFormed(s) && !Landed(s)
  {
    && s.foreign == |s.versions| - 1
    && if s.editor.documentId != s.document then s.due && s.shown == 0 == s.foreign
       else
         && EndsWith(s.editor.echoes, s.versions[Covered(s)..s.foreign])
         && s.versions[s.foreign] !in s.editor.echoes
         && (s.shown < s.foreign ==> s.versions[s.foreign] != s.depends)
  }

  ghost predicate Inv(s: Session) {
    && WellFormed(s)
    && (if Landed(s) then InStep(s) else Incoming(s))
  }

  function Newest(s: Session): string
    requires s.versions != []
  {
    s.versions[|s.versions| - 1]
  }

  lemma StepKeepsInv(s: Session, event: Event)
    requires Inv(s) && Enabled(s, event)
    ensures Inv(Step(s, event))
    ensures Newest(Step(s, event)) == LastWritten(Newest(s), [event])
  {
    match event
    case Type(text) => TypeKeepsInv(s, text);
    case Commit(version) => CommitKeepsInv(s, version);
    case RunEffect => EffectKeepsInv(s);
    case WriteOutside(text) => OutsideKeepsInv(s, text);
    case SwitchTo(documentId, text) =>
  }

  lemma TypeKeepsInv(s: Session, text: string)
    requires Inv(s) && Enabled(s, Type(text))
    ensures Inv(Step(s, Type(text))) && Newest(Step(s, Type(text))) == text
  {
    var s' := Step(s, Type(text));
    var k := Covered(s);
    assert s'.versions == s.versions + [text];
    assert s'.versions[k..] == s.versions[k..] + [text];
    var echoes := s.editor.echoes;
    assert (echoes + [text])[|echoes| - (|s.versions| - k)..] == echoes[|echoes| - (|s.versions| - k)..] + [text];
  }

  lemma OutsideKeepsInv(s: Session, text: string)
    requires Inv(s) && Enabled(s, WriteOutside(text))
    ensures Inv(Step(s, WriteOutside(text))) && Newest(Step(s, WriteOutside(text))) == text
  {
    hide EndsWith;
    var s' := Step(s, WriteOutside(text));
    assert s'.versions == s.versions + [text] && !Landed(s');
    assert s'.versions[Covered(s)..s'.foreign] == s.versions[Covered(s)..];
  }

  lemma CommitKeepsInv(s: Session, version: nat)
    requires Inv(s) && Enabled(s, Commit(version))
    ensures Inv(Step(s, Commit(version)))
  {
    if Landed(s) {
      LandedCommitKeepsInv(s, version);
    } else if version < s.foreign {
      EarlierCommitKeepsInv(s, version);
    } else {
      assert s.versions[s.foreign..s.foreign] == [];
    }
  }

  lemma LandedCommitKeepsInv(s: Session, version: nat)
    requires Inv(s) && Enabled(s, Commit(version)) && Landed(s)
    ensures Inv(Step(s, Commit(version)))
  {
    hide EndsWith;
    var before, after := Covered(s), Covered(Step(s, Commit(version)));
    assert before <= after;
    SuffixEnds(s.editor.echoes, s.versions[before..], after - before);
    assert s.versions[after..] == s.versions[before..][after - before..];
  }

  /** A render that does not reach the foreign text yet: its value is one of the editor's own. */
  lemma EarlierCommitKeepsInv(s: Session, version: nat)
    requires Inv(s) && Enabled(s, Commit(version)) && !Landed(s) && version < s.foreign
    ensures Inv(Step(s, Commit(version)))
  {
    hide EndsWith;
    var echoes, before, after := s.editor.echoes, Covered(s), Covered(Step(s, Commit(version)));
    var pending := s.versions[before..s.foreign];
    if before <= version {
      assert s.versions[version] == pending[version - before];
      PendingIsOutstanding(echoes, pending, version - before);
    }
    assert before <= after;
    SuffixEnds(echoes, pending, after - before);
    assert s.versions[after..s.foreign] == pending[after - before..];
  }

  lemma SuffixEnds(echoes: seq<string>, pending: seq<string>, k: nat)
    requires EndsWith(echoes, pending) && k <= |pending|
    ensures EndsWith(echoes, pending[k..])
  {
    assert echoes[|echoes| - (|pending| - k)..] == pending[k..];
  }

  lemma EffectKeepsInv(s: Session)
    requires Inv(s) && Enabled(s, RunEffect)
    ensures Inv(Step(s, RunEffect)) && Newest(Step(s, RunEffect)) == Newest(s)
    ensures Landed(s) ==> Step(s, RunEffect).editor.buffer == s.editor.buffer
  {
    if Landed(s) || s.shown < s.foreign {
      OwnEffectKeepsInv(s);
    } else {
      ForeignEffectKeepsInv(s);
    }
  }

  /** The editor knows its own text: it drops the echo and older ones, and sends nothing. */
  lemma OwnEffect(s: Session, end: nat)
    requires WellFormed(s) && Enabled(s, RunEffect) && s.editor.documentId == s.document
    requires s.shown < end <= |s.versions| && EndsWith(s.editor.echoes, s.versions[s.shown..end])
    ensures var s' := Step(s, RunEffect);
            && s' == s.(editor := s'.editor, due := false)
            && s'.editor == s.editor.(echoes := s'.editor.echoes)
            && EndsWith(s.editor.echoes, s'.editor.echoes)
            && EndsWith(s'.editor.echoes, s.versions[s.shown + 1..end])
  {
    var e, value := s.editor, s.versions[s.shown];
    var pending := s.versions[s.shown..end];
    FoundNoLater(e.echoes, pending);
    assert pending[1..] == s.versions[s.shown + 1..end];
    assert s.versions + e.sent[|e.sent|..] == s.versions;
  }

  lemma OwnEffectKeepsInv(s: Session)
    requires Inv(s) && Enabled(s, RunEffect)
    requires Landed(s) || s.shown < s.foreign
    ensures Inv(Step(s, RunEffect)) && Newest(Step(s, RunEffect)) == Newest(s)
    ensures Step(s, RunEffect).editor.buffer == s.editor.buffer
  {
    hide EndsWith;
    if Landed(s) {
      assert s.versions[s.shown..|s.versions|] == s.versions[s.shown..];
      OwnEffect(s, |s.versions|);
      hide Step;
      assert s.versions[s.shown + 1..|s.versions|] == s.versions[s.shown + 1..];
    } else {
      OwnEffect(s, s.foreign);
      hide Step;
      StillUnknown(s.editor.echoes, Step(s, RunEffect).editor.echoes, s.versions[s.foreign]);
    }
  }

  lemma StillUnknown(echoes: seq<string>, later: seq<string>, value: string)
    requires EndsWith(echoes, later) && value !in echoes
    ensures value !in later
  {
    assert forall i :: 0 <= i < |later| ==> later[i] == echoes[|echoes| - |later| + i];
  }

  /** A foreign value lands, and all that goes up because of it is that value, or nothing. */
  lemma ForeignEffect(s: Session)
    requires WellFormed(s) && Enabled(s, RunEffect)
    requires s.editor.documentId == s.document ==> s.versions[s.shown] !in s.editor.echoes
    ensures var value, s' := s.versions[s.shown], Step(s, RunEffect);
            && s' == s.(editor := s'.editor, versions := s.versions + s'.editor.echoes, due := false)
            && s'.editor.buffer == value && s'.editor.documentId == s.document
            && (s'.editor.echoes == [] || s'.editor.echoes == [value])
  {
    var e, value := s.editor, s.versions[s.shown];
    var e' := Reconciled(e, value, s.document);
    assert e'.sent[|e.sent|..] == e'.echoes;
  }

  lemma ForeignEffectKeepsInv(s: Session)
    requires Inv(s) && Enabled(s, RunEffect)
    requires !Landed(s) && s.shown == s.foreign
    ensures Inv(Step(s, RunEffect)) && Newest(Step(s, RunEffect)) == Newest(s)
  {
    ForeignEffect(s);
    hide Step;
    hide Reconciled;
    var s' := Step(s, RunEffect);
    assert s'.versions[Covered(s')..] == s'.editor.echoes;
    assert s'.editor.echoes[0..] == s'.editor.echoes;
  }

  lemma PendingIsOutstanding(echoes: seq<string>, pending: seq<string>, k: nat)
    requires EndsWith(echoes, pending) && k < |pending|
    ensures pending[k] in echoes
  {
    assert echoes[|echoes| - |pending|..][k] == echoes[|echoes| - |pending| + k];
  }

  /** The first match may be an older equal text, but never a newer one. */
  lemma FoundNoLater(echoes: seq<string>, pending: seq<string>)
    requires pending != [] && EndsWith(echoes, pending)
    ensures pending[0] in echoes
    ensures EndsWith(echoes[FirstIndex(echoes, pending[0]) + 1..], pending[1..])
  {
    var at := |echoes| - |pending|;
    assert echoes[at] == echoes[at..][0] == pending[0];
    var found := FirstIndex(echoes, pending[0]);
    assert found <= at;
    assert echoes[found + 1..][at - found..] == echoes[at + 1..] == pending[1..];
  }

  /**
   Main result. Over every possible run of typing, renders that skip or repeat, effects,
   fresh outside writes and document switches: whenever no foreign text is on its way, the
   buffer is what was written last, it is the parent's newest version, and the versions not
   yet returned are how the outstanding echoes end.
   */
  lemma {:induction false} BufferIsWhatWasWrittenLast(text: string, document: Option<string>, events: seq<Event>)
    requires Possible(Start(text, document), events)
    ensures var s := After(Start(text, document), events);
            && s.versions != [] && Newest(s) == LastWritten(text, events)
            && Covered(s) <= |s.versions|
            && (Landed(s) ==>
                 && s.editor.buffer == LastWritten(text, events)
                 && EndsWith(s.editor.echoes, s.versions[Covered(s)..]))
  {
    RunKeepsInv(Start(text, document), events);
  }

  lemma {:induction false} RunKeepsInv(s: Session, events: seq<Event>)
    requires Inv(s) && Possible(s, events)
    ensures Inv(After(s, events))
    ensures var s' := After(s, events);
            Newest(s') == LastWritten(Newest(s), events)
    decreases |events|
  {
    if events != [] {
      StepKeepsInv(s, events[0]);
      RunKeepsInv(Step(s, events[0]), events[1..]);
    }
  }

  // ---------------------------------------------------------------- what goes up

  /**
   What goes up in a run, read off the events: every typed text, every outside text once it has
   landed, and the text of a document switched to if it is not what was written last.
   */
  function GoesUp(text: string, events: seq<Event>): seq<string>
    decreases |events|
  {
    if events == [] then []
    else
      match events[0]
      case Type(t) => [t] + GoesUp(t, events[1..])
      case WriteOutside(t) => [t] + GoesUp(t, events[1..])
      case SwitchTo(_, t) => (if t != text then [t] else []) + GoesUp(t, events[1..])
      case _ => GoesUp(text, events[1..])
  }

  /** The foreign text still on its way, if it is to go up. */
  function Unsent(s: Session): seq<string>
    requires s.versions != []
  {
    if Landed(s) || (s.editor.documentId != s.document && Newest(s) == s.editor.buffer) then [] else [Newest(s)]
  }

  lemma TypeGoesUp(s: Session, text: string)
    requires Inv(s) && Enabled(s, Type(text))
    ensures var s' := Step(s, Type(text));
            s'.versions != [] && s'.editor.sent + Unsent(s') == s.editor.sent + Unsent(s) + [text]
  {
    var s' := Step(s, Type(text));
    assert Landed(s');
    assert s.editor.sent + [] + [text] == s.editor.sent + [text] == s.editor.sent + [text] + [];
  }

  lemma EffectGoesUp(s: Session)
    requires Inv(s) && Enabled(s, RunEffect)
    ensures var s' := Step(s, RunEffect);
            s'.versions != [] && s'.editor.sent + Unsent(s') == s.editor.sent + Unsent(s)
  {
    hide EndsWith;
    if Landed(s) || s.shown < s.foreign {
      OwnEffectSendsNothing(s);
    } else {
      ForeignEffectSends(s);
    }
  }

  lemma OwnEffectSendsNothing(s: Session)
    requires Inv(s) && Enabled(s, RunEffect) && (Landed(s) || s.shown < s.foreign)
    ensures var s' := Step(s, RunEffect);
            && s'.versions == s.versions && s'.editor.sent == s.editor.sent && s'.editor.buffer == s.editor.buffer
            && s'.editor.documentId == s.editor.documentId && (Landed(s') <==> Landed(s))
  {
    hide EndsWith;
    if Landed(s) {
      assert s.versions[s.shown..|s.versions|] == s.versions[s.shown..];
      OwnEffect(s, |s.versions|);
    } else {
      OwnEffect(s, s.foreign);
    }
  }

  lemma ForeignEffectSends(s: Session)
    requires Inv(s) && Enabled(s, RunEffect) && !Landed(s) && s.shown == s.foreign
    ensures var s' := Step(s, RunEffect);
            s'.versions != [] && Landed(s') && s'.editor.sent == s.editor.sent + Unsent(s)
  {
    hide EndsWith;
    ForeignEffect(s);
    var e, value := s.editor, s.versions[s.shown];
    assert value == Newest(s);
    assert e.sent + [] == e.sent;
    if e.documentId != s.document {
      SwitchIsAuthoritative(e, value, s.document);
    } else {
      SameDocumentLandsIff(e, value);
    }
  }

  lemma OtherGoesUp(s: Session, event: Event)
    requires Inv(s) && Enabled(s, event) && !event.Type? && !event.RunEffect?
    ensures var s' := Step(s, event);
            && s'.versions != [] && s'.editor == s.editor
            && Unsent(s') == Unsent(s) + GoesUp(Newest(s), [event])
  {
    hide EndsWith;
    assert [event][1..] == [];
  }

  lemma StepGoesUp(s: Session, event: Event)
    requires Inv(s) && Enabled(s, event)
    ensures var s' := Step(s, event);
            && s'.versions != []
            && s'.editor.sent + Unsent(s') == s.editor.sent + Unsent(s) + GoesUp(Newest(s), [event])
  {
    hide Inv;
    hide Step;
    hide Enabled;
    hide Unsent;
    InvHasVersions(s);
    assert [event][1..] == [];
    match event
    case Type(text) =>
      TypeGoesUp(s, text);
      assert GoesUp(Newest(s), [event]) == [text] + [] == [text];
    case RunEffect =>
      EffectGoesUp(s);
      assert s.editor.sent + Unsent(s) + [] == s.editor.sent + Unsent(s);
    case _ =>
      OtherGoesUp(s, event);
      var s' := Step(s, event);
      assert s.editor.sent + (Unsent(s) + GoesUp(Newest(s), [event]))
          == s.editor.sent + Unsent(s) + GoesUp(Newest(s), [event]);
  }

  lemma InvHasVersions(s: Session)
    requires Inv(s)
    ensures s.versions != []
  {
  }

  lemma GoesUpStep(text: string, event: Event, rest: seq<Event>)
    ensures GoesUp(text, [event] + rest) == GoesUp(text, [event]) + GoesUp(LastWritten(text, [event]), rest)
  {
    assert ([event] + rest)[1..] == rest && [event][1..] == [];
    assert forall xs: seq<string> :: xs + [] == xs;
  }

  lemma {:induction false} RunGoesUp(s: Session, events: seq<Event>)
    requires Inv(s) && Possible(s, events)
    ensures var s' := After(s, events);
            && s.versions != [] && s'.versions != []
            && s'.editor.sent + Unsent(s') == s.editor.sent + Unsent(s) + GoesUp(Newest(s), events)
    decreases |events|
  {
    hide Inv;
    hide Step;
    hide Enabled;
    hide Unsent;
    hide GoesUp;
    InvHasVersions(s);
    if events == [] {
      assert GoesUp(Newest(s), []) == [] by { NothingGoesUp(Newest(s)); }
      assert s.editor.sent + Unsent(s) + [] == s.editor.sent + Unsent(s);
    } else {
      var next, rest := Step(s, events[0]), events[1..];
      StepKeepsInv(s, events[0]);
      StepGoesUp(s, events[0]);
      RunGoesUp(next, rest);
      assert events == [events[0]] + rest;
      GoesUpStep(Newest(s), events[0], rest);
      var sent, first, later := s.editor.sent + Unsent(s), GoesUp(Newest(s), [events[0]]), GoesUp(Newest(next), rest);
      assert sent + first + later == sent + (first + later);
    }
  }

  lemma NothingGoesUp(text: string)
    ensures GoesUp(text, []) == []
  {
  }

  /**
   Main result about the parent. Over every possible run: what has gone up, and the foreign text
   still on its way, is exactly what was typed and what was written from outside or switched
   to, each once and in order; so nothing is missing once no foreign text is on its way.
   */
  lemma SentIsWhatWasWritten(text: string, document: Option<string>, events: seq<Event>)
    requires Possible(Start(text, document), events)
    ensures var s := After(Start(text, document), events);
            && s.versions != [] && s.editor.sent + Unsent(s) == GoesUp(text, events)
            && (Landed(s) ==> s.editor.sent == GoesUp(text, events))
  {
    var first := Start(text, document);
    assert Inv(first);
    RunGoesUp(first, events);
    var s := After(first, events);
    assert [] + [] + GoesUp(text, events) == GoesUp(text, events);
    assert s.editor.sent + [] == s.editor.sent;
  }

  // ---------------------------------------------------------------- runs of the editor alone

  /** Runs in which only the editor writes: typing, and renders coming back late. */
  predicate OnlyOwn(events: seq<Event>) {
    forall e <- events :: e.Type? || e.Commit? || e.RunEffect?
  }

  /**
   With no outside write and no switch, typing is never held up, and between keystrokes the
   buffer never moves: each step either types or leaves the buffer as it was.
   */
  lemma {:induction false} OwnTextsNeverMoveTheBuffer(text: string, document: Option<string>, events: seq<Event>,
          next: Event)
    requires OnlyOwn(events) && Possible(Start(text, document), events)
    requires next.Type? || next.Commit? || next.RunEffect?
    ensures var s := After(Start(text, document), events);
            && (next.Type? ==> Enabled(s, next) && Step(s, next).editor.buffer == next.text)
            && (!next.Type? && Enabled(s, next) ==> Step(s, next).editor.buffer == s.editor.buffer)
  {
    OwnRunStaysLanded(Start(text, document), events);
    var s := After(Start(text, document), events);
    if next.RunEffect? && Enabled(s, next) {
      EffectKeepsInv(s);
    }
  }

  lemma {:induction false} OwnRunStaysLanded(s: Session, events: seq<Event>)
    requires Inv(s) && OnlyOwn(events) && Possible(s, events) && s.foreign == 0 && Landed(s)
    ensures Inv(After(s, events)) && Landed(After(s, events)) && After(s, events).foreign == 0
    decreases |events|
  {
    if events != [] {
      StepKeepsInv(s, events[0]);
      assert events[0] in events;
      OwnRunStaysLanded(Step(s, events[0]), events[1..]);
    }
  }

  // ---------------------------------------------------------------- where recognition fails

  /** Everything returned, nothing due: the quietest state there is. */
  ghost predicate Settled(s: Session) {
    Inv(s) && Landed(s) && !s.due && Covered(s) == |s.versions|
  }

  /**
   What an outside write into a settled document does once it is rendered: it reaches the
   buffer if and only if it is not an echo left over, or changes nothing anyway.
   */
  lemma SettledOutsideWriteLandsIff(s: Session, text: string)
    requires Settled(s)
    ensures var rendered := s.(versions := s.versions + [text], foreign := |s.versions|);
            Enabled(rendered, Commit(|s.versions|)) &&
            var committed := Step(rendered, Commit(|s.versions|));
            var after := if committed.due then Step(committed, RunEffect) else committed;
            after.editor.buffer == text <==> text !in s.editor.echoes || text == s.editor.buffer
  {
  }

  function TypedTexts(events: seq<Event>): seq<string> {
    if events == [] then []
    else (if events[0].Type? then [events[0].text] else []) + TypedTexts(events[1..])
  }

  predicate Distinct(texts: seq<string>) {
    forall i, j :: 0 <= i < j < |texts| ==> texts[i] != texts[j]
  }

  /** The echoes are the versions from `e` on, and once the effect has run, those it has not seen. */
  predicate EchoesFrom(s: Session, e: nat) {
    && WellFormed(s) && s.editor.documentId == s.document
    && e <= Covered(s) <= |s.versions| && (!s.due ==> e == Covered(s))
    && s.editor.echoes == s.versions[e..]
  }

  lemma DistinctEffect(s: Session, e: nat)
    requires EchoesFrom(s, e) && s.due && Distinct(s.versions)
    ensures EchoesFrom(Step(s, RunEffect), s.shown + 1) && Step(s, RunEffect).versions == s.versions
  {
    var value, echoes := s.versions[s.shown], s.editor.echoes;
    assert echoes[s.shown - e] == value;
    var found := FirstIndex(echoes, value);
    assert s.versions[e + found] == value;
    assert echoes[found + 1..] == s.versions[s.shown + 1..];
    assert s.versions + s.editor.sent[|s.editor.sent|..] == s.versions;
  }

  lemma TypeMovesOn(s: Session, e: nat, text: string)
    requires EchoesFrom(s, e)
    ensures var s' := Delivered(s, Reported(s.editor, text));
            EchoesFrom(s', e) && s'.versions == s.versions + [text]
  {
    assert (s.editor.sent + [text])[|s.editor.sent|..] == [text];
    assert (s.versions + [text])[e..] == s.versions[e..] + [text];
  }

  lemma DistinctStep(s: Session, event: Event, e: nat) returns (e': nat)
    requires EchoesFrom(s, e) && Enabled(s, event) && (event.Type? || event.Commit? || event.RunEffect?)
    requires Distinct(s.versions)
    ensures EchoesFrom(Step(s, event), e') && Step(s, event).versions == s.versions + TypedTexts([event])
  {
    e' := e;
    match event
    case Type(text) => TypeMovesOn(s, e, text);
    case Commit(version) =>
    case RunEffect =>
      DistinctEffect(s, e);
      e' := s.shown + 1;
  }

  lemma DistinctPart(a: seq<string>, b: seq<string>)
    requires Distinct(a + b)
    ensures Distinct(a)
  {
    assert forall i :: 0 <= i < |a| ==> (a + b)[i] == a[i];
  }

  lemma {:induction false} DistinctRun(s: Session, events: seq<Event>, e: nat) returns (e': nat)
    requires EchoesFrom(s, e) && OnlyOwn(events) && Possible(s, events)
    requires Distinct(s.versions + TypedTexts(events))
    ensures EchoesFrom(After(s, events), e') && After(s, events).versions == s.versions + TypedTexts(events)
    decreases |events|
  {
    hide Step;
    hide EchoesFrom;
    hide Distinct;
    if events == [] {
      e' := e;
      assert s.versions + [] == s.versions;
    } else {
      assert events[0] in events;
      DistinctPart(s.versions, TypedTexts(events));
      e' := DistinctStep(s, events[0], e);
      var first, later := TypedTexts([events[0]]), TypedTexts(events[1..]);
      assert [events[0]][1..] == [] && first + [] == first;
      assert TypedTexts(events) == first + later;
      assert s.versions + first + later == s.versions + (first + later);
      e' := DistinctRun(Step(s, events[0]), events[1..], e');
    }
  }

  /**
   Typing texts that are all different leaves no echo behind, whatever renders are skipped:
   once the session has settled, every outside write lands.
   */
  lemma DistinctTypingLeavesNone(text: string, document: Option<string>, events: seq<Event>, outside: string)
    requires OnlyOwn(events) && Possible(Start(text, document), events)
    requires Distinct([text] + TypedTexts(events)) && Settled(After(Start(text, document), events))
    ensures var s := After(Start(text, document), events);
            && s.editor.echoes == []
            && var rendered := s.(versions := s.versions + [outside], foreign := |s.versions|);
               var committed := Step(rendered, Commit(|s.versions|));
               (if committed.due then Step(committed, RunEffect) else committed).editor.buffer == outside
  {
    var first := Start(text, document);
    assert first.versions[1..] == [];
    var e := DistinctRun(first, events, 1);
    var s := After(first, events);
    assert s.versions[e..] == [];
    SettledOutsideWriteLandsIff(s, outside);
  }

  const TYPED_TWICE: seq<Event> := [Type("a")] + ([Type("b")] + ([Type("a")] + ([Commit(3)] + ([RunEffect] + []))))

  /** A session whose parent holds what was sent after an empty start. */
  function Typed(echoes: seq<string>, sent: seq<string>, buffer: string): Session {
    Session(Editor(buffer, None, echoes, sent), None, [""] + sent, 0, false, "", 0)
  }

  /** What is left after typing a, b, a with only the last of them rendered. */
  const WITH_LEFTOVER: Session :=
    Typed(["b", "a"], ["a", "b", "a"], "a").(shown := 3, depends := "a")

  lemma TypingStep(echoes: seq<string>, sent: seq<string>, buffer: string, text: string)
    ensures Enabled(Typed(echoes, sent, buffer), Type(text))
    ensures Step(Typed(echoes, sent, buffer), Type(text)) == Typed(echoes + [text], sent + [text], text)
  {
    assert (sent + [text])[|sent|..] == [text];
    assert [""] + sent + [text] == [""] + (sent + [text]);
  }

  lemma RunFromStep(s: Session, event: Event, rest: seq<Event>)
    requires Enabled(s, event) && Possible(Step(s, event), rest)
    ensures Possible(s, [event] + rest) && After(s, [event] + rest) == After(Step(s, event), rest)
  {
    assert ([event] + rest)[1..] == rest;
  }

  lemma LeftoverEffect()
    ensures var s := Typed(["a", "b", "a"], ["a", "b", "a"], "a").(shown := 3, due := true, depends := "a");
            Enabled(s, RunEffect) && Step(s, RunEffect) == WITH_LEFTOVER
  {
    var s := Typed(["a", "b", "a"], ["a", "b", "a"], "a").(shown := 3, due := true, depends := "a");
    assert s.versions[3] == "a";
    assert s.editor.echoes[1..] == ["b", "a"];
    var e := Reconciled(s.editor, "a", None);
    assert FirstIndex(s.editor.echoes, "a") == 0;
    assert e == s.editor.(echoes := ["b", "a"]);
    assert e.sent[|s.editor.sent|..] == [];
    assert s.versions + [] == s.versions;
  }

  /** The first match leaves b outstanding for good. */
  lemma LeftoverIsReachable()
    ensures Possible(Start("", None), TYPED_TWICE) && After(Start("", None), TYPED_TWICE) == WITH_LEFTOVER
  {
    assert [""] + [] == [""];
    assert Start("", None) == Typed([], [], "");
    TypingStep([], [], "", "a");
    TypingStep(["a"], ["a"], "a", "b");
    TypingStep(["a", "b"], ["a", "b"], "b", "a");
    assert [] + ["a"] == ["a"] && ["a"] + ["b"] == ["a", "b"] && ["a", "b"] + ["a"] == ["a", "b", "a"];
    var s3 := Typed(["a", "b", "a"], ["a", "b", "a"], "a");
    assert Step(s3, Commit(3)) == s3.(shown := 3, due := true, depends := "a");
    LeftoverEffect();
    RunFromStep(Step(s3, Commit(3)), RunEffect, []);
    RunFromStep(s3, Commit(3), [RunEffect] + []);
    RunFromStep(Typed(["a", "b"], ["a", "b"], "b"), Type("a"), [Commit(3)] + ([RunEffect] + []));
    RunFromStep(Typed(["a"], ["a"], "a"), Type("b"), [Type("a")] + ([Commit(3)] + ([RunEffect] + [])));
    RunFromStep(Start("", None), Type("a"), [Type("b")] + ([Type("a")] + ([Commit(3)] + ([RunEffect] + []))));
  }

  /**
   A settled session reached by typing alone in which a statement loaded from outside is
   taken for an echo: the parent holds b, and the editor goes on showing a.
   */
  lemma LeftoverEchoSwallowsOutsideWrite()
    ensures Settled(WITH_LEFTOVER)
    ensures var written := WITH_LEFTOVER.(versions := WITH_LEFTOVER.versions + ["b"], foreign := 4);
            && Enabled(written, Commit(4)) && Step(written, Commit(4)).due
            && Step(Step(written, Commit(4)), RunEffect).editor.buffer == "a"
            && Newest(Step(Step(written, Commit(4)), RunEffect)) == "b"
  {
    assert WITH_LEFTOVER.versions == ["", "a", "b", "a"];
    var written := WITH_LEFTOVER.(versions := WITH_LEFTOVER.versions + ["b"], foreign := 4);
    var sent := WITH_LEFTOVER.editor.sent;
    assert sent[|sent|..] == [];
    assert written.versions + [] == written.versions;
  }
}
