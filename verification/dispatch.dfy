/** The voice-assistant socket route: what the endpoint does with each frame
    it receives, and the presentation handlers that connect the session
    manager to the presentation state machine.

    A handler is a function from the presentation service to the new service
    and the list of replies it sends, in order; `Deliver` then pushes the
    replies through the session manager. A reply is sent with `send_json` or
    `send_bytes`, both of which refuse while the session is not connected, so
    the handlers' own "if still connected" guards need no separate model.
    Speech synthesis, the slide generator and the conversation model are
    parameters bundled in `Voice`. */
module Dispatch {
  import opened Common
  import opened Connection
  import P = Presentation

  // -------------------------------------------------------------- replies

  datatype Reply = SendMsg(msg: Message) | SendAudio(bytes: seq<bv8>)

  /** The collaborators a handler calls: `speech` is `generate_speech` with
      the default voice, `generate` and `speak` are what the AI slide turn
      uses, `converse` is the ordinary conversation turn. */
  datatype Voice = Voice(speech: string -> seq<bv8>,
                         generate: (P.Persona, int, string) -> P.Generation,
                         speak: (string, P.Persona) -> seq<bv8>,
                         converse: string -> (string, seq<bv8>))

  function TextReply(text: string, role: string, op: string, context: Option<string>): Message {
    Msg("text", JObj([("text", JStr(text)), ("role", JStr(role)), ("operation_id", JStr(op))] +
                     (if context.Some? then [("context", JStr(context.value))] else [])))
  }

  function Say(text: string, op: string, context: Option<string>): Reply {
    SendMsg(TextReply(text, "assistant", op, context))
  }

  function ErrorReply(message: string, op: string): Reply {
    SendMsg(Msg("error", JObj([("message", JStr(message)), ("operation_id", JStr(op))])))
  }

  function Control(action: string, target: string, op: string): Reply {
    SendMsg(Msg("control", JObj([("action", JStr(action)), ("target", JStr(target)), ("operation_id", JStr(op))])))
  }

  function PresenterName(p: P.Presenter): string {
    if p == P.Human then "human" else "ai"
  }

  function SlideUpdate(n: int, who: P.Presenter, total: int, op: string): Reply {
    SendMsg(Msg("presentation_update", JObj([("current_slide", JInt(n)), ("current_presenter", JStr(PresenterName(who))),
                                             ("total_slides", JInt(total)), ("operation_id", JStr(op))])))
  }

  function Finished(message: string, op: string): Reply {
    SendMsg(Msg("presentation_update", JObj([("presentation_active", JBool(false)), ("message", JStr(message)),
                                             ("operation_id", JStr(op))])))
  }

  /** The audio reply, sent only when synthesis produced some bytes. */
  function Speak(audio: seq<bv8>): (r: seq<Reply>)
    ensures |audio| == 0 <==> r == []
  {
    if |audio| == 0 then [] else [SendAudio(audio)]
  }

  /** Audio followed by the playback-start notice, when there is audio. */
  function Playback(audio: seq<bv8>, op: string): (r: seq<Reply>)
    ensures |audio| == 0 <==> r == []
  {
    if |audio| == 0 then [] else [SendAudio(audio), Control("start", "playback", op)]
  }

  /** Sends the replies in order through the session manager. */
  function Deliver(m: Manager, sid: string, rs: seq<Reply>): (r: Manager)
    ensures !IsConnected(m, sid) ==> r == m
    ensures m.wire <= r.wire
    ensures forall o :: o != sid ==> Get(r, o) == Get(m, o)
    decreases |rs|
  {
    if |rs| == 0 then m
    else
      var m1 := match rs[0]
                case SendMsg(msg) => SendJson(m, sid, msg).0
                case SendAudio(b) => SendBytes(m, sid, b, None).0;
      Deliver(m1, sid, rs[1..])
  }

  function Kinds(rs: seq<Reply>): seq<string>
    requires forall i :: 0 <= i < |rs| ==> rs[i].SendMsg?
  {
    if |rs| == 0 then [] else [rs[0].msg.kind] + Kinds(rs[1..])
  }

  function FrameKinds(ws: seq<WireEvent>): seq<string> {
    if |ws| == 0 then []
    else (if ws[0].frame.JsonFrame? then [ws[0].frame.msg.kind] else []) + FrameKinds(ws[1..])
  }

  lemma {:induction false} FrameKindsAppend(a: seq<WireEvent>, b: seq<WireEvent>)
    ensures FrameKinds(a + b) == FrameKinds(a) + FrameKinds(b)
    decreases |a|
  {
    if |a| == 0 {
      assert a + b == b;
    } else {
      assert (a + b)[1..] == a[1..] + b;
      FrameKindsAppend(a[1..], b);
    }
  }

  /** On a writable session, a run of JSON replies reaches the session's
      handle in the order the handler produced them. */
  lemma {:induction false} DeliverInOrder(m: Manager, sid: string, rs: seq<Reply>)
    requires Writable(m, sid)
    requires forall i :: 0 <= i < |rs| ==> rs[i].SendMsg?
    ensures var r := Deliver(m, sid, rs);
            && Writable(r, sid) && HandleOf(r, sid) == HandleOf(m, sid)
            && FrameKinds(r.wire[|m.wire|..]) == Kinds(rs)
    decreases |rs|
  {
    var r := Deliver(m, sid, rs);
    if |rs| == 0 {
      assert r.wire[|m.wire|..] == [];
    } else {
      var m1 := SendJson(m, sid, rs[0].msg).0;
      var ev := WireEvent(HandleOf(m, sid), JsonFrame(Stamp(m, rs[0].msg)));
      DeliverFirst(m, sid, rs);
      DeliverInOrder(m1, sid, rs[1..]);
      SuffixAfterSnoc(m.wire, ev, r.wire);
      FrameKindsAppend([ev], r.wire[|m1.wire|..]);
    }
  }

  /** The first JSON reply goes out as one frame and the rest follow it. */
  lemma DeliverFirst(m: Manager, sid: string, rs: seq<Reply>)
    requires Writable(m, sid) && |rs| > 0 && rs[0].SendMsg?
    ensures var m1 := SendJson(m, sid, rs[0].msg).0;
            && Deliver(m, sid, rs) == Deliver(m1, sid, rs[1..])
            && m1.wire == m.wire + [WireEvent(HandleOf(m, sid), JsonFrame(Stamp(m, rs[0].msg)))]
            && Writable(m1, sid) && HandleOf(m1, sid) == HandleOf(m, sid)
  {
  }

  /** What follows a prefix extended by one element starts with it. */
  lemma SuffixAfterSnoc<T>(w: seq<T>, e: T, v: seq<T>)
    requires w + [e] <= v
    ensures v[|w|..] == [e] + v[|w| + 1..]
  {
    assert v[|w|] == (w + [e])[|w|];
  }

  // ------------------------------------------------------ classification

  /** The spoken commands, in the order they are tried. */
  const AdvanceWords := ["next slide", "advance slide", "continue", "move on", "go ahead", "next"]
  const EndWords := ["end presentation", "finish presentation", "conclude", "wrap up", "finish", "end"]
  const FeedbackWords := ["feedback", "how did i do", "evaluate", "assess", "review"]

  /** Some word of `words` occurs in the lower-cased utterance. */
  predicate Mentions(text: string, words: seq<string>) {
    exists i :: 0 <= i < |words| && Contains(Lower(text), words[i])
  }

  function AnyContained(s: string, words: seq<string>): (b: bool)
    ensures b <==> exists i :: 0 <= i < |words| && Contains(s, words[i])
  {
    if |words| == 0 then false
    else if Contains(s, words[0]) then true
    else
      var b := AnyContained(s, words[1..]);
      assert forall i :: 1 <= i < |words| ==> words[i] == words[1..][i - 1];
      b
  }

  datatype Command = AdvanceCmd | EndCmd | FeedbackCmd | NoCommand

  /** The keyword test of `handle_presentation_audio`: first match wins, in
      the order advance, end, feedback; matching is by substring of the
      lower-cased utterance, so it also fires inside longer words. */
  function Classify(text: string): (c: Command)
    ensures c == AdvanceCmd <==> Mentions(text, AdvanceWords)
    ensures c == EndCmd <==> !Mentions(text, AdvanceWords) && Mentions(text, EndWords)
    ensures c == FeedbackCmd <==>
              !Mentions(text, AdvanceWords) && !Mentions(text, EndWords) && Mentions(text, FeedbackWords)
    ensures c == NoCommand <==>
              !Mentions(text, AdvanceWords) && !Mentions(text, EndWords) && !Mentions(text, FeedbackWords)
  {
    var s := Lower(text);
    if AnyContained(s, AdvanceWords) then AdvanceCmd
    else if AnyContained(s, EndWords) then EndCmd
    else if AnyContained(s, FeedbackWords) then FeedbackCmd
    else NoCommand
  }

  /** Any utterance with "next" in it, in any case and even inside another
      word, advances the slide, whatever else it says. */
  lemma NextAnywhereAdvances(a: string, w: string, b: string)
    requires Lower(w) == "next"
    ensures Classify(a + w + b) == AdvanceCmd
  {
    LowerConcat(a + w, b);
    LowerConcat(a, w);
    ContainsInside(Lower(a), "next", Lower(b));
    assert AdvanceWords[5] == "next";
  }

  /** Any utterance with "end" in it (so also "weekend" or "attend") is taken
      as a command and is never recorded as presentation speech. */
  lemma EndAnywhereIsCommand(a: string, w: string, b: string)
    requires Lower(w) == "end"
    ensures Classify(a + w + b) in {AdvanceCmd, EndCmd}
  {
    LowerConcat(a + w, b);
    LowerConcat(a, w);
    ContainsInside(Lower(a), "end", Lower(b));
    assert EndWords[5] == "end";
  }

  // -------------------------------------------------------------- advance

  /** The text `str(e)` gives for the two service methods the handlers call
      but the service does not define. */
  const CompletionMissing := "'EnhancedVoiceAssistantService' object has no attribute 'handle_presentation_completion'"
  const FeedbackMissing := "'EnhancedVoiceAssistantService' object has no attribute 'generate_comprehensive_feedback'"

  /** `handle_presentation_completion`: the service call fails before any
      reply, so the handler's error reply is all that is sent. */
  function Completion(op: string): seq<Reply> {
    [ErrorReply("Error completing presentation: " + CompletionMissing, op)]
  }

  predicate SaysLastSlide(e: string) {
    Contains(Lower(e), "last slide")
  }

  /** What `handle_advance_slide` does with an error from `advance_slide`. */
  function AdvanceErrorReplies(e: string, op: string): (r: seq<Reply>)
    ensures SaysLastSlide(e) ==> r == Completion(op)
    ensures !SaysLastSlide(e) ==> r == [ErrorReply(e, op)]
  {
    if SaysLastSlide(e) then Completion(op) else [ErrorReply(e, op)]
  }

  /** A text in which the letter l occurs in neither case cannot mention the
      last slide. */
  lemma NoLetterL(e: string)
    requires forall i :: 0 <= i < |e| ==> e[i] != 'l' && e[i] != 'L'
    ensures !SaysLastSlide(e)
  {
    var s := Lower(e);
    forall i | 0 <= i && i + |"last slide"| <= |s|
      ensures !OccursAt(s, "last slide", i)
    {
      assert s[i..i + |"last slide"|][0] == s[i] != 'l';
    }
    ContainsIffOccurs(s, "last slide");
  }

  /** The two errors `advance_slide` can return are routed apart: the end of
      the deck goes to the completion path, an unknown session is reported. */
  lemma AdvanceErrorsRouted(op: string)
    ensures AdvanceErrorReplies(P.AtLastSlide, op) == Completion(op)
    ensures AdvanceErrorReplies(P.NoPresentation, op) == [ErrorReply(P.NoPresentation, op)]
  {
    AtLastSlideSaysIt();
    NoLetterL(P.NoPresentation);
  }

  /** The end-of-deck error mentions the last slide. */
  lemma AtLastSlideSaysIt()
    ensures SaysLastSlide(P.AtLastSlide)
  {
    var s := Lower(P.AtLastSlide);
    assert s == "already at the " + "last slide" + "";
    ContainsInside("already at the ", "last slide", "");
  }

  function GuidanceText(n: int): string {
    "It's your turn to present slide " + IntToString(n) + ". When you're ready to move on, say 'next slide'."
  }

  /** The AI turn for slide `n` as the handlers send it: processing start,
      the text, audio and playback notice when there is audio, processing
      stop. */
  function AiTurn(svc: P.Service, sid: string, n: int, op: string, v: Voice): (r: (P.Service, seq<Reply>))
    ensures |r.1| >= 3 && r.1[0] == Control("start", "processing", op) && r.1[|r.1| - 1] == Control("stop", "processing", op)
    ensures r.0 == P.PresentationTurn(svc, sid, n, v.generate, v.speak).0
  {
    var t := P.PresentationTurn(svc, sid, n, v.generate, v.speak);
    (t.0, [Control("start", "processing", op), Say(t.1, op, Some("presentation"))] + Playback(t.2, op) +
          [Control("stop", "processing", op)])
  }

  /** `handle_advance_slide`. */
  function HandleAdvanceSlide(svc: P.Service, sid: string, op: string, v: Voice): (r: (P.Service, seq<Reply>))
    ensures sid !in svc.states ==> r == (svc, [ErrorReply(P.NoPresentation, op)])
    ensures sid in svc.states && svc.states[sid].currentSlide >= svc.states[sid].totalSlides ==>
              r == (svc, Completion(op))
    ensures sid in svc.states && svc.states[sid].currentSlide < svc.states[sid].totalSlides ==>
              var st := svc.states[sid];
              var n := st.currentSlide + 1;
              var who := P.PresenterFor(n, st.presenterRanges);
              && sid in r.0.states
              && r.0.states[sid].currentSlide == n
              && P.PresenterConsistent(r.0.states[sid])
              && |r.1| >= 2
              && r.1[0] == SlideUpdate(n, who, st.totalSlides, op)
              && (who == P.AI ==> r.1[1] == Control("start", "processing", op))
              && (who == P.Human ==> (r.1[1] == Say(GuidanceText(n), op, Some("presentation_guidance")) &&
                                     r.0 == P.AdvanceSlide(svc, sid).0))
  {
    var a := P.AdvanceSlide(svc, sid);
    match a.1
    case SlideError(e) =>
      AdvanceErrorsRouted(op);
      (a.0, AdvanceErrorReplies(e, op))
    case SlideInfo(n, who, total, _) =>
      var update := SlideUpdate(n, who, total, op);
      if who == P.AI then
        var t := AiTurn(a.0, sid, n, op, v);
        (t.0, [update] + t.1)
      else
        var g := GuidanceText(n);
        (a.0, [update, Say(g, op, Some("presentation_guidance"))] + Speak(v.speech(g)))
  }

  /** `handle_present_slide`: present the current slide when it is the AI's
      turn, otherwise hand the turn to the human. */
  function HandlePresentSlide(svc: P.Service, sid: string, op: string, v: Voice): (r: (P.Service, seq<Reply>))
    ensures (sid !in svc.states || !svc.states[sid].active) ==>
              r == (svc, [ErrorReply("No active presentation found", op)])
    ensures sid in svc.states && svc.states[sid].active && svc.states[sid].currentPresenter == P.Human ==>
              r.0 == svc && |r.1| >= 1 &&
              r.1[0] == Say(GuidanceText(svc.states[sid].currentSlide), op, Some("presentation_guidance"))
    ensures sid in svc.states && svc.states[sid].active && svc.states[sid].currentPresenter == P.AI ==>
              |r.1| >= 3 && r.1[0] == Control("start", "processing", op)
  {
    match P.GetPresentationState(svc, sid)
    case None => (svc, [ErrorReply("No active presentation found", op)])
    case Some(view) =>
      if !view.active then (svc, [ErrorReply("No active presentation found", op)])
      else if view.currentPresenter != P.AI then
        var g := GuidanceText(view.currentSlide);
        (svc, [Say(g, op, Some("presentation_guidance"))] + Speak(v.speech(g)))
      else AiTurn(svc, sid, view.currentSlide, op, v)
  }

  // ------------------------------------------------------ end and feedback

  const Conclusion := "The presentation has concluded. I hope it was helpful. Would you like feedback on your presentation?"
  const CannotEnd := "Could not end presentation - no active presentation found"

  /** `handle_end_presentation`. */
  function HandleEndPresentation(svc: P.Service, sid: string, op: string, v: Voice): (r: (P.Service, seq<Reply>))
    ensures sid !in svc.states ==> r == (svc, [ErrorReply(CannotEnd, op)])
    ensures sid in svc.states ==>
              && r.0 == svc.(states := svc.states[sid := svc.states[sid].(active := false)])
              && |r.1| >= 2 && r.1[0] == Finished("Presentation ended", op)
              && r.1[1] == Say(Conclusion, op, Some("presentation_conclusion"))
  {
    var e := P.EndPresentation(svc, sid);
    if !e.1 then (e.0, [ErrorReply(CannotEnd, op)])
    else (e.0, [Finished("Presentation ended", op), Say(Conclusion, op, Some("presentation_conclusion"))] +
               Speak(v.speech(Conclusion)))
  }

  /** `handle_request_feedback`: the feedback call fails, so the reply is the
      error between the processing start and stop notices. */
  function HandleRequestFeedback(op: string): seq<Reply> {
    [Control("start", "processing", op), ErrorReply("Error generating feedback: " + FeedbackMissing, op),
     Control("stop", "processing", op)]
  }

  // ---------------------------------------------------- presentation audio

  const ListeningText := "I'm listening to your presentation. Continue when you're ready, or say 'next slide' to advance."

  function ReminderText(n: int): string {
    "It's currently my turn to present slide " + IntToString(n) + ". You can say 'next slide' when you're ready to advance."
  }

  /** The text `str(e)` gives for the `KeyError` raised when the session has
      no presentation: `repr` of the session id. */
  function MissingKey(sid: string): string {
    StrRepr(sid)
  }

  /** A session id without quotes, backslashes or line controls is quoted
      as it stands; one holding a single quote is put in double quotes. */
  lemma MissingKeyQuotes(sid: string)
    ensures (forall i :: 0 <= i < |sid| ==> PlainReprChar(sid[i])) ==> MissingKey(sid) == "'" + sid + "'"
    ensures MissingKey("a'b") == "\"a'b\""
  {
    if forall i :: 0 <= i < |sid| ==> PlainReprChar(sid[i]) {
      assert '\'' !in sid by {
        forall i | 0 <= i < |sid| ensures sid[i] != '\'' { assert PlainReprChar(sid[i]); }
      }
      EscapePlain(sid);
    }
    var t := "a'b";
    assert '\'' in t && '"' !in t;
    assert Escape(t, '"') == "a'b";
  }

  /** A character `repr` copies inside single quotes. */
  predicate PlainReprChar(c: char) {
    c != '\\' && c != '\'' && c != '\n' && c != '\r' && c != '\t'
  }

  lemma {:induction false} EscapePlain(t: string)
    requires forall i :: 0 <= i < |t| ==> PlainReprChar(t[i])
    ensures Escape(t, '\'') == t
  {
    if |t| > 0 {
      EscapePlain(t[1..]);
      assert t == [t[0]] + t[1..];
    }
  }

  /** `handle_presentation_audio`: a spoken command runs its handler after an
      acknowledgement; any other utterance is recorded for the current slide
      on the human's turn and answered with a reminder on the AI's turn. */
  function HandlePresentationAudio(svc: P.Service, sid: string, text: string, op: string, humanTurn: bool,
                                   v: Voice): (r: (P.Service, seq<Reply>))
    ensures sid !in svc.states ==>
              r == (svc, [ErrorReply("Error processing presentation audio: " + MissingKey(sid), op)])
    ensures sid in svc.states && Classify(text) == AdvanceCmd ==>
              var a := HandleAdvanceSlide(svc, sid, op, v);
              r == (a.0, [Say("Advancing to the next slide...", op, None)] + a.1)
    ensures sid in svc.states && Classify(text) == EndCmd ==>
              var e := HandleEndPresentation(svc, sid, op, v);
              r == (e.0, [Say("Ending the presentation...", op, None)] + e.1)
    ensures sid in svc.states && Classify(text) == FeedbackCmd ==>
              r == (svc, [Say("Generating presentation feedback...", op, None)] + HandleRequestFeedback(op))
    ensures sid in svc.states && Classify(text) == NoCommand && humanTurn ==>
              r.0 == P.RecordTranscription(svc, sid, svc.states[sid].currentSlide, text) &&
              |r.1| >= 1 && r.1[0] == Say(ListeningText, op, Some("presentation_listening"))
    ensures sid in svc.states && Classify(text) == NoCommand && !humanTurn ==>
              r.0 == svc && |r.1| >= 1 &&
              r.1[0] == Say(ReminderText(svc.states[sid].currentSlide), op, Some("presentation_reminder"))
  {
    if sid !in svc.states then (svc, [ErrorReply("Error processing presentation audio: " + MissingKey(sid), op)])
    else
      var slide := svc.states[sid].currentSlide;
      match Classify(text)
      case AdvanceCmd =>
        var a := HandleAdvanceSlide(svc, sid, op, v);
        (a.0, [Say("Advancing to the next slide...", op, None)] + a.1)
      case EndCmd =>
        var e := HandleEndPresentation(svc, sid, op, v);
        (e.0, [Say("Ending the presentation...", op, None)] + e.1)
      case FeedbackCmd =>
        (svc, [Say("Generating presentation feedback...", op, None)] + HandleRequestFeedback(op))
      case NoCommand =>
        if humanTurn then
          (P.RecordTranscription(svc, sid, slide, text),
           [Say(ListeningText, op, Some("presentation_listening"))] + Speak(v.speech(ListeningText)))
        else
          var t := ReminderText(slide);
          (svc, [Say(t, op, Some("presentation_reminder"))] + Speak(v.speech(t)))
  }

  /** A plain utterance on the AI's turn leaves every transcription as it
      was; on the human's turn it extends only the current slide's entry. */
  lemma PlainUtteranceRecording(svc: P.Service, sid: string, text: string, op: string, v: Voice)
    requires sid in svc.states && Classify(text) == NoCommand
    ensures HandlePresentationAudio(svc, sid, text, op, false, v).0.transcriptions == svc.transcriptions
    ensures var r := HandlePresentationAudio(svc, sid, text, op, true, v).0;
            var n := svc.states[sid].currentSlide;
            && sid in r.transcriptions && n in r.transcriptions[sid]
            && (forall s :: s != sid && s in svc.transcriptions ==> s in r.transcriptions && r.transcriptions[s] == svc.transcriptions[s])
            && (sid in svc.transcriptions ==>
                  forall k :: k in svc.transcriptions[sid] && k != n ==> r.transcriptions[sid][k] == svc.transcriptions[sid][k])
  {
  }

  /** The part of `handle_binary_message` after transcription. Transcribing
      already recorded the text when the human holds the turn (see
      `P.NoteTranscribedAudio`); in presentation mode the utterance then goes
      to `handle_presentation_audio`, otherwise to the conversation model.
      The processing stop notice of the `finally` block always closes the
      exchange. */
  function AudioFrame(svc: P.Service, sid: string, text: string, op: string, v: Voice): (r: (P.Service, seq<Reply>))
    ensures |r.1| >= 2 && r.1[0] == Control("start", "processing", op) && r.1[|r.1| - 1] == Control("stop", "processing", op)
    ensures text == "" ==> r.0 == P.NoteTranscribedAudio(svc, sid, text)
    ensures text != "" && sid in svc.states && svc.states[sid].active ==>
              var svc1 := P.NoteTranscribedAudio(svc, sid, text);
              var h := HandlePresentationAudio(svc1, sid, text, op, svc.states[sid].currentPresenter == P.Human, v);
              r == (h.0, [Control("start", "processing", op), SendMsg(TextReply(text, "user", op, None))] + h.1 +
                         [Control("stop", "processing", op)])
    ensures text != "" && !(sid in svc.states && svc.states[sid].active) ==> r.0 == svc
  {
    var start := Control("start", "processing", op);
    var stop := Control("stop", "processing", op);
    var svc1 := P.NoteTranscribedAudio(svc, sid, text);
    if text == "" then
      (svc1, [start, stop,
              SendMsg(Msg("transcription_status", JObj([("status", JStr("empty")), ("message", JStr("No speech detected in audio")),
                                                        ("operation_id", JStr(op))]))),
              stop])
    else
      var echo := SendMsg(TextReply(text, "user", op, None));
      if sid in svc1.states && svc1.states[sid].active then
        var h := HandlePresentationAudio(svc1, sid, text, op, svc1.states[sid].currentPresenter == P.Human, v);
        (h.0, [start, echo] + h.1 + [stop])
      else
        var answer := v.converse(text);
        (svc1, [start, echo,
                SendMsg(Msg("processing_status", JObj([("status", JStr("processing")), ("message", JStr("Processing your message...")),
                                                       ("operation_id", JStr(op))]))),
                Say(answer.0, op, None)] + Playback(answer.1, op) + [stop])
  }

  /** One plain utterance spoken on the human's turn is written to the slide
      ledger twice: once while transcribing and once by the presentation
      handler. */
  lemma UtteranceRecordedTwice(svc: P.Service, sid: string, text: string, op: string, v: Voice)
    requires sid in svc.states && svc.states[sid].active && svc.states[sid].currentPresenter == P.Human
    requires text != "" && Classify(text) == NoCommand
    requires sid !in svc.transcriptions || svc.states[sid].currentSlide !in svc.transcriptions[sid]
    ensures var r := AudioFrame(svc, sid, text, op, v).0;
            r.transcriptions[sid][svc.states[sid].currentSlide] == text + "\n" + text
  {
    var n := svc.states[sid].currentSlide;
    var svc1 := P.NoteTranscribedAudio(svc, sid, text);
    assert svc1 == P.RecordTranscription(svc, sid, n, text);
    assert svc1.states == svc.states;
    P.RecordTwice(svc, sid, n, text, text);
  }

  // ---------------------------------------------------------- text frames

  /** The name Python gives the type of a decoded JSON value. */
  function TypeName(j: Json): string {
    match j
    case JNull => "NoneType"
    case JBool(_) => "bool"
    case JInt(_) => "int"
    case JStr(_) => "str"
    case JArr(_) => "list"
    case JObj(_) => "dict"
  }

  function NoGet(j: Json): string {
    "'" + TypeName(j) + "' object has no attribute 'get'"
  }

  /** Python's truth value of a decoded JSON value. */
  predicate Truthy(j: Json) {
    match j
    case JNull => false
    case JBool(b) => b
    case JInt(i) => i != 0
    case JStr(t) => t != ""
    case JArr(items) => |items| > 0
    case JObj(members) => |members| > 0
  }

  /** The quote `repr` puts around a string: a single quote, unless the text
      holds a single quote and no double quote. */
  function QuoteFor(t: string): char {
    if '\'' in t && '"' !in t then '"' else '\''
  }

  /** One character inside `repr`'s quotes `q`: the backslash, the quote
      itself and the three line controls are escaped. */
  function EscapeChar(c: char, q: char): string {
    if c == '\\' then "\\\\"
    else if c == q then ['\\', q]
    else if c == '\n' then "\\n"
    else if c == '\r' then "\\r"
    else if c == '\t' then "\\t"
    else [c]
  }

  function Escape(t: string, q: char): string {
    if |t| == 0 then "" else EscapeChar(t[0], q) + Escape(t[1..], q)
  }

  function StrRepr(t: string): string {
    var q := QuoteFor(t);
    [q] + Escape(t, q) + [q]
  }

  /** Python's `repr` of a decoded JSON value, the text `str` gives a list or
      a dictionary. */
  function Repr(j: Json): string {
    match j
    case JNull => "None"
    case JBool(b) => if b then "True" else "False"
    case JInt(i) => IntToString(i)
    case JStr(t) => StrRepr(t)
    case JArr(items) => "[" + Join(seq(|items|, k requires 0 <= k < |items| => Repr(items[k])), ", ") + "]"
    case JObj(members) =>
      "{" + Join(seq(|members|, k requires 0 <= k < |members| =>
                       StrRepr(members[k].0) + ": " + Repr(members[k].1)), ", ") + "}"
  }

  /** Python's `str` of a decoded JSON value, as an f-string prints it. */
  function PyStr(j: Json): (r: string)
    ensures j.JStr? ==> r == j.s
    ensures !j.JStr? ==> r == Repr(j)
  {
    if j.JStr? then j.s else Repr(j)
  }

  /** Only a string can name a control action: `str` of anything else starts
      with a sign, a digit, a capital or a bracket, never a small letter. */
  lemma NonStringNamesNoAction(j: Json)
    requires !j.JStr?
    ensures PyStr(j) !in ControlActions
  {
    ReprStart(j);
    var r := PyStr(j);
    forall a | a in ControlActions
      ensures r != a
    {
      assert 'a' <= a[0] <= 'z';
    }
  }

  /** The first character of `repr` of a non-string value. */
  lemma ReprStart(j: Json)
    requires !j.JStr?
    ensures |Repr(j)| > 0 && (Repr(j)[0] < 'a' || 'z' < Repr(j)[0])
  {
    match j
    case JInt(i) =>
      if i >= 0 {
        assert Repr(j) == NatToString(i);
      }
    case _ =>
  }

  /** `obj.get(key)` on a nested value that must itself be a dictionary:
      `NotDict` with the error text when it is not. */
  datatype Fetch = Found(value: Option<Json>) | NotDict(error: string)

  /** `data.get("data", {}).get(key)`. */
  function Inner(data: Json, key: string): (r: Fetch)
    requires data.JObj?
    ensures data.Get("data").None? ==> r == Found(None)
    ensures data.Get("data").Some? && data.Get("data").value.JObj? ==> r == Found(data.Get("data").value.Get(key))
    ensures data.Get("data").Some? && !data.Get("data").value.JObj? ==> r == NotDict(NoGet(data.Get("data").value))
  {
    match data.Get("data")
    case None => Found(None)
    case Some(d) => if d.JObj? then Found(d.Get(key)) else NotDict(NoGet(d))
  }

  const ControlActions := ["advance_slide", "present_slide", "end_presentation", "request_feedback"]

  function UnknownAction(action: string): string {
    "Unknown presentation control action: " + action
  }

  /** The `presentation_control` branch of `handle_text_message`, after the
      processing-status notice. */
  function ControlAction(svc: P.Service, sid: string, action: string, op: string, v: Voice): (r: (P.Service, seq<Reply>))
    ensures action == "advance_slide" ==> r == HandleAdvanceSlide(svc, sid, op, v)
    ensures action == "present_slide" ==> r == HandlePresentSlide(svc, sid, op, v)
    ensures action == "end_presentation" ==> r == HandleEndPresentation(svc, sid, op, v)
    ensures action == "request_feedback" ==> r == (svc, HandleRequestFeedback(op))
    ensures action !in ControlActions ==> r == (svc, [ErrorReply(UnknownAction(action), op)])
  {
    if action == "advance_slide" then HandleAdvanceSlide(svc, sid, op, v)
    else if action == "present_slide" then HandlePresentSlide(svc, sid, op, v)
    else if action == "end_presentation" then HandleEndPresentation(svc, sid, op, v)
    else if action == "request_feedback" then (svc, HandleRequestFeedback(op))
    else (svc, [ErrorReply(UnknownAction(action), op)])
  }

  /** The frame's `type` as `data.get("type", "")` reads it. */
  function Kind(data: Json): Json
    requires data.JObj?
  {
    data.Get("type").GetOr(JStr(""))
  }

  /** The acknowledgement every handled text frame gets first; it echoes the
      frame's `type` value as it came. */
  function Ack(data: Json, op: string, now: nat): Reply
    requires data.JObj?
  {
    SendMsg(Msg("message_received", JObj([("original_type", Kind(data)), ("operation_id", JStr(op)),
                                          ("timestamp", JInt(now))])))
  }

  /** The control action as the handler prints and compares it:
      `str(data.get("data", {}).get("action", ""))`. */
  function ActionText(a: Option<Json>): string {
    match a
    case Some(x) => PyStr(x)
    case None => ""
  }

  function ProcessingStatus(action: string, op: string): Reply {
    SendMsg(Msg("processing_status", JObj([("status", JStr("processing")),
                                           ("message", JStr(action + " in progress...")),
                                           ("operation_id", JStr(op))])))
  }

  /** `handle_text_message` for a connected session, given the frame's
      operation id and the current time: acknowledge, then act on the type.
      A `data` member that is not a dictionary raises inside the handler,
      whose catch-all reports it. */
  function HandleText(svc: P.Service, sid: string, data: Json, op: string, now: nat, v: Voice): (r: (P.Service, seq<Reply>))
    requires data.JObj?
    ensures |r.1| >= 1 && r.1[0] == Ack(data, op, now)
    ensures Kind(data) !in [JStr("init"), JStr("ping"), JStr("text"), JStr("presentation_control")] ==> r == (svc, [r.1[0]])
    ensures Kind(data) == JStr("init") ==> r == (svc, [r.1[0], Control("initialized", "session", op)])
    ensures Kind(data) == JStr("presentation_control") && Inner(data, "action").Found? ==>
              var action := ActionText(Inner(data, "action").value);
              var c := ControlAction(svc, sid, action, op, v);
              r.0 == c.0 && |r.1| >= 2 && r.1[1] == ProcessingStatus(action, op) && r.1[2..] == c.1
    ensures Kind(data) in [JStr("ping"), JStr("text"), JStr("presentation_control")] &&
            Inner(data, KindKey(Kind(data))).NotDict? ==>
              r == (svc, [r.1[0], ErrorReply("Error processing message: " + Inner(data, KindKey(Kind(data))).error, op)])
  {
    var kind := Kind(data);
    var ack := Ack(data, op, now);
    var failed := (e: string) => [ack, ErrorReply("Error processing message: " + e, op)];
    if kind == JStr("init") then
      (svc, [ack, Control("initialized", "session", op)])
    else if kind == JStr("ping") then
      match Inner(data, "timestamp")
      case NotDict(e) => (svc, failed(e))
      case Found(t) =>
        (svc, [ack, SendMsg(Msg("pong", JObj([("server_time", JInt(now)), ("server_time_ms", JInt(now)),
                                              ("original_ping_time", t.GetOr(JNull))])))])
    else if kind == JStr("text") then
      match Inner(data, "text")
      case NotDict(e) => (svc, failed(e))
      case Found(t) =>
        if t.Some? && t.value.JStr? && t.value.s != "" then
          var answer := v.converse(t.value.s);
          (svc, [ack, Control("start", "processing", op), Say(answer.0, op, None)] + Playback(answer.1, op) +
                [Control("stop", "processing", op)])
        else (svc, [ack])
    else if kind == JStr("presentation_control") then
      match Inner(data, "action")
      case NotDict(e) => (svc, failed(e))
      case Found(a) =>
        var action := ActionText(a);
        var c := ControlAction(svc, sid, action, op, v);
        (c.0, [ack, ProcessingStatus(action, op)] + c.1)
    else (svc, [ack])
  }

  /** The inner key each handled type reads first. */
  function KindKey(kind: Json): string {
    if kind == JStr("ping") then "timestamp" else if kind == JStr("text") then "text" else "action"
  }

  /** A control action that is not a string is echoed with Python's `str` in
      the status notice and is answered as unknown. */
  lemma NonStringActionUnknown(svc: P.Service, sid: string, data: Json, op: string, now: nat, v: Voice)
    requires data.JObj? && Kind(data) == JStr("presentation_control")
    requires Inner(data, "action").Found? && Inner(data, "action").value.Some?
    requires !Inner(data, "action").value.value.JStr?
    ensures var x := Inner(data, "action").value.value;
            var r := HandleText(svc, sid, data, op, now, v);
            && r.0 == svc
            && r.1 == [Ack(data, op, now), ProcessingStatus(PyStr(x), op), ErrorReply(UnknownAction(PyStr(x)), op)]
  {
    NonStringNamesNoAction(Inner(data, "action").value.value);
  }

  /** An unknown control action is answered with exactly one error naming
      it, after the acknowledgement and the status notice. */
  lemma UnknownControlAnswered(svc: P.Service, sid: string, action: string, op: string, now: nat, v: Voice)
    requires action !in ControlActions
    ensures var data := JObj([("type", JStr("presentation_control")), ("data", JObj([("action", JStr(action))]))]);
            var r := HandleText(svc, sid, data, op, now, v);
            r.0 == svc && |r.1| == 3 && r.1[2] == ErrorReply(UnknownAction(action), op)
  {
    var data := JObj([("type", JStr("presentation_control")), ("data", JObj([("action", JStr(action))]))]);
    assert data.Get("type") == Some(JStr("presentation_control"));
    var inner := JObj([("action", JStr(action))]);
    assert data.members[0].0 != "data" by { assert "type"[0] != "data"[0]; }
    assert Lookup(data.members[1..], "data") == Some(inner);
    assert Lookup(data.members, "data") == Some(inner);
    assert inner.Get("action") == Some(JStr(action));
    assert Inner(data, "action") == Found(Some(JStr(action)));
  }

  // ------------------------------------------------------------ main loop

  /** How a frame's `message_id` keys the task table: an id (none when it
      is missing or falsy, so a fresh one is made), or the name of the
      unhashable type that cannot key a dictionary. */
  datatype FrameKey = Keyed(id: Option<MsgId>) | Unhashable(typeName: string)

  function FrameId(data: Json): (k: FrameKey)
    ensures k.Unhashable? <==> data.Get("message_id").Some? && Truthy(data.Get("message_id").value) &&
                               (data.Get("message_id").value.JArr? || data.Get("message_id").value.JObj?)
  {
    match data.Get("message_id")
    case Some(JStr(t)) => Keyed(Some(Client(t)))
    case Some(JInt(i)) => Keyed(Some(ClientNumber(i)))
    case Some(JBool(b)) => Keyed(Some(ClientNumber(if b then 1 else 0)))
    case Some(JArr(items)) => if |items| == 0 then Keyed(None) else Unhashable("list")
    case Some(JObj(members)) => if |members| == 0 then Keyed(None) else Unhashable("dict")
    case _ => Keyed(None)
  }

  predicate IsPong(data: Json) {
    data.Get("type") == Some(JStr("heartbeat_response")) || data.Get("type") == Some(JStr("pong"))
  }

  const InvalidJson := Msg("error", JObj([("message", JStr("Invalid JSON format"))]))

  function ServerError(text: string): Message {
    Msg("error", JObj([("message", JStr("Server error: " + text))]))
  }

  /** The id a frame's handler task is filed under: its own truthy string
      or number id, or a fresh one. */
  function FrameTaskId(m: Manager, data: Json): (id: MsgId)
    requires FrameId(data).Keyed?
    ensures var mid := data.Get("message_id");
            (mid.None? || !Truthy(mid.value)) <==> id == Generated(m.nextId)
    ensures var mid := data.Get("message_id");
            mid.Some? && mid.value.JStr? && mid.value.s != "" ==> id == Client(mid.value.s)
    ensures var mid := data.Get("message_id");
            mid.Some? && mid.value.JInt? && mid.value.i != 0 ==> id == ClientNumber(mid.value.i)
    ensures data.Get("message_id") == Some(JBool(true)) ==> id == ClientNumber(1)
  {
    TaskId(m, FrameId(data).id)
  }

  /** Python files a task keyed `True` and one keyed `1` under the same
      entry. */
  lemma TrueAndOneShareKey(m: Manager)
    ensures FrameTaskId(m, JObj([("message_id", JBool(true))])) == FrameTaskId(m, JObj([("message_id", JInt(1))]))
  {
    assert JObj([("message_id", JBool(true))]).Get("message_id") == Some(JBool(true));
    assert JObj([("message_id", JInt(1))]).Get("message_id") == Some(JInt(1));
  }

  function UnhashableError(typeName: string): Message {
    ServerError("unhashable type: '" + typeName + "'")
  }

  /** A text frame in the endpoint's receive loop. `frame` is the decoded
      JSON, or `None` when it does not parse. Heartbeat answers only note the
      pong time (the second result); every other dictionary starts a handler
      task filed under the frame's message id or a fresh one. */
  function RouteText(m: Manager, sid: string, frame: Option<Json>): (r: (Manager, bool))
    ensures r.1 <==> frame.Some? && frame.value.JObj? && IsPong(frame.value)
    ensures r.1 ==> r.0 == m
    ensures frame.None? ==> r.0 == SendJson(m, sid, InvalidJson).0
    ensures frame.Some? && !frame.value.JObj? ==> r.0 == SendJson(m, sid, ServerError(NoGet(frame.value))).0
    ensures frame.Some? && frame.value.JObj? && !IsPong(frame.value) && FrameId(frame.value).Unhashable? ==>
              r.0 == SendJson(m, sid, UnhashableError(FrameId(frame.value).typeName)).0
    ensures frame.Some? && frame.value.JObj? && !IsPong(frame.value) && FrameId(frame.value).Keyed? ==>
              var id := FrameTaskId(m, frame.value);
              && id in Get(r.0, sid).tasks
              && Get(r.0, sid).tasks[id] == m.nextTask
              && m.nextTask in r.0.runs && r.0.runs[m.nextTask] == TaskRun(sid, id, TaskRunning)
              && id in Get(r.0, sid).tracking && Get(r.0, sid).tracking[id] == Track(TaskTrack, Running)
              && r.0.wire == m.wire
  {
    match frame
    case None => (SendJson(m, sid, InvalidJson).0, false)
    case Some(data) =>
      if !data.JObj? then (SendJson(m, sid, ServerError(NoGet(data))).0, false)
      else if IsPong(data) then (m, true)
      else
        match FrameId(data)
        case Unhashable(t) => (SendJson(m, sid, UnhashableError(t)).0, false)
        case Keyed(mid) =>
          var c := CreateTask(m, sid, mid);
          assert c.1 == m.nextTask && TaskId(m, mid) == FrameTaskId(m, data);
          (c.0, false)
  }

  /** A binary frame starts a handler task under a fresh id. */
  function RouteBytes(m: Manager, sid: string): (r: Manager)
    ensures Generated(m.nextId) in Get(r, sid).tasks && Get(r, sid).tasks[Generated(m.nextId)] == m.nextTask
    ensures m.nextTask in r.runs && r.runs[m.nextTask] == TaskRun(sid, Generated(m.nextId), TaskRunning)
    ensures r.wire == m.wire && forall o :: o != sid ==> Get(r, o) == Get(m, o)
  {
    var c := CreateTask(m, sid, None);
    assert c.1 == m.nextTask && TaskId(m, None) == Generated(m.nextId);
    c.0
  }

  /** The heartbeat's wait in seconds: shorter while the session presents. */
  function HeartbeatWait(svc: P.Service, sid: string): (w: nat)
    ensures w == 15 <==> sid in svc.states && svc.states[sid].active
    ensures w == 30 <==> !(sid in svc.states && svc.states[sid].active)
  {
    if sid in svc.states && svc.states[sid].active then 15 else 30
  }

  /** Ending a presentation lengthens the heartbeat wait. */
  lemma EndingSlowsHeartbeat(svc: P.Service, sid: string, op: string, v: Voice)
    requires sid in svc.states && svc.states[sid].active
    ensures HeartbeatWait(svc, sid) == 15
    ensures HeartbeatWait(HandleEndPresentation(svc, sid, op, v).0, sid) == 30
  {
  }

  // -------------------------------------------------------------- cleanup

  /** `heartbeat_task.cancel()` when the task has not finished. */
  function CancelHeartbeat(m: Manager, heartbeat: Option<nat>): (r: Manager)
    ensures heartbeat.Some? && heartbeat.value in m.runs && m.runs[heartbeat.value].state == TaskRunning ==>
              r == m.(runs := m.runs[heartbeat.value := m.runs[heartbeat.value].(state := Cancelling)])
    ensures !(heartbeat.Some? && heartbeat.value in m.runs && m.runs[heartbeat.value].state == TaskRunning) ==> r == m
  {
    if heartbeat.Some? && heartbeat.value in m.runs && m.runs[heartbeat.value].state == TaskRunning then
      m.(runs := m.runs[heartbeat.value := m.runs[heartbeat.value].(state := Cancelling)])
    else m
  }

  /** The endpoint's `finally` block as written: cancel this connection's
      heartbeat, then disconnect the session by its id, whichever
      connection is filed for it by then. */
  function EndpointCleanupAsWritten(m: Manager, sid: string, heartbeat: Option<nat>): (r: Manager)
    ensures !IsConnected(r, sid)
    ensures forall o :: o != sid ==> Get(r, o) == Get(m, o)
  {
    Disconnect(CancelHeartbeat(m, heartbeat), sid)
  }

  /** The cleanup as intended: only the connection `h` that this endpoint
      served is torn down. */
  function EndpointCleanup(m: Manager, sid: string, h: Handle, heartbeat: Option<nat>): (r: Manager)
    ensures Get(m, sid).handle == Some(h) ==> !IsConnected(r, sid)
    ensures Get(m, sid).handle != Some(h) ==> Get(r, sid) == Get(m, sid) && r.wire == m.wire
    ensures forall o :: o != sid ==> Get(r, o) == Get(m, o)
  {
    DisconnectHandle(CancelHeartbeat(m, heartbeat), sid, h)
  }

  /** A client reconnects under the same session id: the first endpoint's
      socket is closed with 1001, its loop ends, and its cleanup disconnects
      the session, taking the new connection down with it. */
  lemma ReplacedCleanupDropsSuccessor(m: Manager, sid: string, h1: Handle, h2: Handle, heartbeat: Option<nat>)
    requires h1 !in m.faults && h2 !in m.faults && h2 != h1
    ensures var c := Connect(Connect(m, sid, h1), sid, h2);
            && IsConnected(c, sid)
            && !IsConnected(EndpointCleanupAsWritten(c, sid, heartbeat), sid)
            && WireEvent(h2, CloseFrame(1000, "")) in EndpointCleanupAsWritten(c, sid, heartbeat).wire
  {
    var c := Connect(Connect(m, sid, h1), sid, h2);
    var c1 := CancelHeartbeat(c, heartbeat);
    assert Get(c1, sid) == Get(c, sid) && c1.faults == c.faults && c1.wire == c.wire;
    var r := Disconnect(c1, sid);
    assert r.wire == c1.wire + [WireEvent(h2, CloseFrame(1000, ""))];
    assert r.wire[|c1.wire|] == WireEvent(h2, CloseFrame(1000, ""));
  }

  /** With the intended cleanup the successor survives the old endpoint's
      exit. */
  lemma ReplacedCleanupKeepsSuccessor(m: Manager, sid: string, h1: Handle, h2: Handle, heartbeat: Option<nat>)
    requires h1 !in m.faults && h2 !in m.faults && h2 != h1
    ensures var c := Connect(Connect(m, sid, h1), sid, h2);
            var r := EndpointCleanup(c, sid, h1, heartbeat);
            && IsConnected(r, sid) && Get(r, sid).handle == Some(h2)
  {
    var c := Connect(Connect(m, sid, h1), sid, h2);
    assert Get(c, sid).handle == Some(h2);
  }
}
