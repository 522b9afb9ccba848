/** The co-presenting state machine of the voice assistant service: one
    presentation per session, a current slide, the inclusive slide ranges the
    human presents, an "active" flag, a per-slide ledger of what the human
    said, and the guards in front of the feedback request.

    The service object is a value of type `Service`; every operation returns
    the new value. Speech synthesis and the language models are parameters. */
module Presentation {
  import opened Common

  datatype Presenter = AI | Human

  /** An inclusive range of slides presented by the human. */
  datatype SlideRange = SlideRange(start: int, end: int) {
    predicate Covers(slide: int) {
      start <= slide <= end
    }
  }

  /** The slide is the human's: some range covers it. */
  predicate HumanSlide(slide: int, ranges: seq<SlideRange>) {
    exists i :: 0 <= i < |ranges| && ranges[i].Covers(slide)
  }

  /** The presenter rule used by setup, advance, set and the AI turn: the
      first range that covers the slide makes it the human's, otherwise it is
      the AI's. */
  function PresenterFor(slide: int, ranges: seq<SlideRange>): (p: Presenter)
    ensures p == Human <==> HumanSlide(slide, ranges)
  {
    if |ranges| == 0 then AI
    else if ranges[0].Covers(slide) then Human
    else
      var p := PresenterFor(slide, ranges[1..]);
      assert forall i :: 1 <= i < |ranges| ==> ranges[i] == ranges[1..][i - 1];
      p
  }

  // ------------------------------------------------------------- persona

  /** The student persona; `gender` is absent unless a caller supplied it. */
  datatype Persona = Persona(name: string, age: int, year: string, major: string,
                             tone: string, speakingStyle: string, gender: Option<string>)

  const DefaultPersona := Persona("Alex", 20, "Sophomore", "Computer Science",
                                  "enthusiastic but informative",
                                  "conversational with occasional academic terminology", None)

  /** The keys a caller-supplied persona dictionary may carry. */
  datatype PersonaUpdate = PersonaUpdate(name: Option<string>, age: Option<int>, year: Option<string>,
                                         major: Option<string>, tone: Option<string>,
                                         speakingStyle: Option<string>, gender: Option<string>) {
    /** An empty dictionary, which the service treats as "no persona given". */
    predicate IsEmpty() {
      name.None? && age.None? && year.None? && major.None? && tone.None? &&
      speakingStyle.None? && gender.None?
    }
  }

  /** `dict.update`: every supplied key overrides, every other key stays. */
  function ApplyPersona(p: Persona, u: PersonaUpdate): (r: Persona)
    ensures u.IsEmpty() ==> r == p
    ensures u.name.Some? ==> r.name == u.name.value
    ensures u.name.None? ==> r.name == p.name
    ensures u.age.Some? ==> r.age == u.age.value
    ensures u.age.None? ==> r.age == p.age
    ensures u.year.Some? ==> r.year == u.year.value
    ensures u.year.None? ==> r.year == p.year
    ensures u.major.Some? ==> r.major == u.major.value
    ensures u.major.None? ==> r.major == p.major
    ensures u.tone.Some? ==> r.tone == u.tone.value
    ensures u.tone.None? ==> r.tone == p.tone
    ensures u.speakingStyle.Some? ==> r.speakingStyle == u.speakingStyle.value
    ensures u.speakingStyle.None? ==> r.speakingStyle == p.speakingStyle
    ensures u.gender.Some? ==> r.gender == u.gender
    ensures u.gender.None? ==> r.gender == p.gender
  {
    Persona(u.name.GetOr(p.name), u.age.GetOr(p.age), u.year.GetOr(p.year), u.major.GetOr(p.major),
            u.tone.GetOr(p.tone), u.speakingStyle.GetOr(p.speakingStyle),
            if u.gender.Some? then u.gender else p.gender)
  }

  // --------------------------------------------------------------- state

  datatype PresentationState = PresentationState(
    currentSlide: int,
    totalSlides: int,
    slideContents: map<int, string>,
    presenterRanges: seq<SlideRange>,
    currentPresenter: Presenter,
    active: bool,
    title: string,
    topic: string,
    persona: Persona)

  /** The state every new presentation starts from before setup fills it. */
  const Fresh := PresentationState(0, 0, map[], [], AI, false, "", "", DefaultPersona)

  /** One entry of a session's conversation history. The setup prompt is kept
      structured: its text is a rendering of these fields. */
  datatype ChatEntry =
    | SetupPrompt(persona: Persona, title: string, topic: string,
                  aiSlides: seq<int>, humanRanges: seq<SlideRange>)
    | Turn(role: string, text: string)

  /** The service's per-session dictionaries. */
  datatype Service = Service(
    states: map<string, PresentationState>,
    transcriptions: map<string, map<int, string>>,
    history: map<string, seq<ChatEntry>>)

  const EmptyService := Service(map[], map[], map[])

  /** The presenter recorded in the state agrees with the presenter rule for
      the current slide. Every operation below keeps this. */
  predicate PresenterConsistent(st: PresentationState) {
    st.currentPresenter == Human <==> HumanSlide(st.currentSlide, st.presenterRanges)
  }

  /** The current slide is a real position: at least 1 and, once there are
      slides, at most the last one. */
  predicate InBounds(st: PresentationState) {
    1 <= st.currentSlide && (st.currentSlide <= st.totalSlides || st.currentSlide == 1)
  }

  // --------------------------------------------------------------- setup

  lemma {:induction false} MaxExists(keys: set<int>)
    requires keys != {}
    ensures exists m :: m in keys && forall k :: k in keys ==> k <= m
    decreases |keys|
  {
    if forall y :: y !in keys { assert false; }
    var x :| x in keys;
    var rest := keys - {x};
    assert forall k :: k in keys ==> k == x || k in rest;
    if rest == {} {
      assert forall k :: k in keys ==> k <= x;
    } else {
      MaxExists(rest);
      var m :| m in rest && forall k :: k in rest ==> k <= m;
      var top := if x <= m then m else x;
      assert top in keys;
      assert forall k :: k in keys ==> k <= top;
    }
  }

  /** `max(slide_contents.keys())`. */
  function MaxKey(keys: set<int>): (m: int)
    requires keys != {}
    ensures m in keys && forall k :: k in keys ==> k <= m
  {
    MaxExists(keys);
    var m :| m in keys && forall k :: k in keys ==> k <= m;
    m
  }

  /** The slides between 1 and `total` that no range covers, ascending: the
      slides the AI announces it will present. */
  function AiSlides(total: int, ranges: seq<SlideRange>): (r: seq<int>)
    ensures forall x :: x in r <==> 1 <= x <= total && !HumanSlide(x, ranges)
    ensures forall i, j :: 0 <= i < j < |r| ==> r[i] < r[j]
    decreases total
  {
    if total < 1 then []
    else
      var r := AiSlides(total - 1, ranges);
      assert forall i :: 0 <= i < |r| ==> r[i] in r && r[i] < total;
      if PresenterFor(total, ranges) == AI then r + [total] else r
  }

  /** `setup_presentation`: always succeeds. The session's previous state, if
      any, is replaced; its transcriptions are kept; a setup prompt is
      appended to its history. */
  function Setup(svc: Service, sid: string, contents: map<int, string>, ranges: seq<SlideRange>,
                 title: string, topic: string, persona: PersonaUpdate): (r: Service)
    ensures sid in r.states
    ensures r.states[sid].currentSlide == 1
    ensures |contents| == 0 ==> r.states[sid].totalSlides == 0
    ensures |contents| > 0 ==>
              r.states[sid].totalSlides in contents && forall k :: k in contents ==> k <= r.states[sid].totalSlides
    ensures r.states[sid].active
    ensures r.states[sid].currentPresenter == Human <==> HumanSlide(1, ranges)
    ensures r.states[sid].slideContents == contents && r.states[sid].presenterRanges == ranges
    ensures persona.IsEmpty() ==> r.states[sid].persona == DefaultPersona
    ensures !persona.IsEmpty() ==> r.states[sid].persona == ApplyPersona(DefaultPersona, persona)
    ensures r.states[sid].title == title && r.states[sid].topic == topic
    ensures PresenterConsistent(r.states[sid]) && InBounds(r.states[sid])
    ensures forall s :: s != sid ==> (s in r.states <==> s in svc.states)
    ensures forall s :: s != sid && s in svc.states ==> r.states[s] == svc.states[s]
    ensures r.transcriptions == svc.transcriptions
    ensures sid in r.history && |r.history[sid]| > 0
    ensures r.history[sid][..|r.history[sid]| - 1] == (if sid in svc.history then svc.history[sid] else [])
    ensures r.history[sid][|r.history[sid]| - 1] ==
              SetupPrompt(r.states[sid].persona, title, topic, AiSlides(r.states[sid].totalSlides, ranges), ranges)
    ensures forall s :: s != sid ==> (s in r.history <==> s in svc.history)
    ensures forall s :: s != sid && s in svc.history ==> r.history[s] == svc.history[s]
  {
    var total := if |contents| == 0 then 0 else MaxKey(contents.Keys);
    var p := if persona.IsEmpty() then DefaultPersona else ApplyPersona(DefaultPersona, persona);
    var st := PresentationState(1, total, contents, ranges, PresenterFor(1, ranges), true, title, topic, p);
    var prior := if sid in svc.history then svc.history[sid] else [];
    var prompt := SetupPrompt(p, title, topic, AiSlides(total, ranges), ranges);
    Service(svc.states[sid := st], svc.transcriptions, svc.history[sid := prior + [prompt]])
  }

  // ----------------------------------------------------------- navigation

  /** A reply carrying slide information, or the error dictionary. */
  datatype SlideReply =
    | SlideInfo(slideNumber: int, presenter: Presenter, totalSlides: int, content: string)
    | SlideError(message: string)

  const NoPresentation := "No presentation found for this session"
  const AtLastSlide := "Already at the last slide"
  const NoContent := "No content available"

  /** The state moved to slide `n`, with the presenter rule applied. */
  function MoveTo(st: PresentationState, n: int): (r: PresentationState)
    ensures r.currentSlide == n && PresenterConsistent(r)
    ensures r == st.(currentSlide := n, currentPresenter := r.currentPresenter)
  {
    st.(currentSlide := n, currentPresenter := PresenterFor(n, st.presenterRanges))
  }

  /** The reply describing the current slide of `st`. */
  function Describe(st: PresentationState): (r: SlideReply)
    ensures r.SlideInfo? && r.slideNumber == st.currentSlide && r.totalSlides == st.totalSlides
    ensures r.presenter == st.currentPresenter
    ensures st.currentSlide in st.slideContents ==> r.content == st.slideContents[st.currentSlide]
    ensures st.currentSlide !in st.slideContents ==> r.content == NoContent
  {
    SlideInfo(st.currentSlide, st.currentPresenter, st.totalSlides,
              if st.currentSlide in st.slideContents then st.slideContents[st.currentSlide] else NoContent)
  }

  /** `advance_slide`. It does not look at the active flag. */
  function AdvanceSlide(svc: Service, sid: string): (r: (Service, SlideReply))
    ensures sid in svc.states ==> sid in r.0.states
    ensures sid !in svc.states ==> r == (svc, SlideError(NoPresentation))
    ensures sid in svc.states && svc.states[sid].currentSlide >= svc.states[sid].totalSlides ==>
              r == (svc, SlideError(AtLastSlide))
    ensures sid in svc.states && svc.states[sid].currentSlide < svc.states[sid].totalSlides ==>
              var old_ := svc.states[sid];
              var new_ := r.0.states[sid];
              && r.0 == svc.(states := svc.states[sid := new_])
              && new_.currentSlide == old_.currentSlide + 1
              && (new_.currentPresenter == Human <==> HumanSlide(new_.currentSlide, old_.presenterRanges))
              && new_ == old_.(currentSlide := new_.currentSlide, currentPresenter := new_.currentPresenter)
              && r.1 == Describe(new_)
  {
    if sid !in svc.states then (svc, SlideError(NoPresentation))
    else
      var st := svc.states[sid];
      if st.currentSlide >= st.totalSlides then (svc, SlideError(AtLastSlide))
      else
        var st' := MoveTo(st, st.currentSlide + 1);
        (svc.(states := svc.states[sid := st']), Describe(st'))
  }

  function SlideRangeError(total: int): string {
    "Slide number must be between 1 and " + IntToString(total)
  }

  /** `set_slide`. */
  function SetSlide(svc: Service, sid: string, n: int): (r: (Service, SlideReply))
    ensures sid in svc.states ==> sid in r.0.states
    ensures sid !in svc.states ==> r == (svc, SlideError(NoPresentation))
    ensures sid in svc.states && (n < 1 || n > svc.states[sid].totalSlides) ==>
              r == (svc, SlideError(SlideRangeError(svc.states[sid].totalSlides)))
    ensures sid in svc.states && 1 <= n <= svc.states[sid].totalSlides ==>
              var old_ := svc.states[sid];
              var new_ := r.0.states[sid];
              && r.0 == svc.(states := svc.states[sid := new_])
              && new_.currentSlide == n
              && (new_.currentPresenter == Human <==> HumanSlide(n, old_.presenterRanges))
              && new_ == old_.(currentSlide := n, currentPresenter := new_.currentPresenter)
              && r.1 == Describe(new_)
  {
    if sid !in svc.states then (svc, SlideError(NoPresentation))
    else
      var st := svc.states[sid];
      if n < 1 || n > st.totalSlides then (svc, SlideError(SlideRangeError(st.totalSlides)))
      else
        var st' := MoveTo(st, n);
        (svc.(states := svc.states[sid := st']), Describe(st'))
  }

  /** `end_presentation`: clears only the active flag. */
  function EndPresentation(svc: Service, sid: string): (r: (Service, bool))
    ensures r.1 <==> sid in svc.states
    ensures !r.1 ==> r.0 == svc
    ensures r.1 ==> r.0 == svc.(states := svc.states[sid := svc.states[sid].(active := false)])
  {
    if sid in svc.states then (svc.(states := svc.states[sid := svc.states[sid].(active := false)]), true)
    else (svc, false)
  }

  /** The dictionary `get_presentation_state` returns (slide contents and
      ranges are not part of it). */
  datatype StateView = StateView(currentSlide: int, totalSlides: int, currentPresenter: Presenter,
                                 active: bool, title: string, topic: string, persona: Persona)

  function GetPresentationState(svc: Service, sid: string): (r: Option<StateView>)
    ensures r.None? <==> sid !in svc.states
    ensures r.Some? ==> var st := svc.states[sid];
              r.value.currentSlide == st.currentSlide && r.value.totalSlides == st.totalSlides &&
              r.value.currentPresenter == st.currentPresenter && r.value.active == st.active &&
              r.value.title == st.title && r.value.topic == st.topic &&
              r.value.persona == st.persona
  {
    if sid !in svc.states then None
    else
      var st := svc.states[sid];
      Some(StateView(st.currentSlide, st.totalSlides, st.currentPresenter, st.active, st.title, st.topic, st.persona))
  }

  /** The reply of `get_slide_content` / `get_current_slide_content`. */
  datatype ContentReply = Content(text: string) | ContentError(message: string)

  function GetSlideContent(svc: Service, sid: string, n: int): (r: ContentReply)
    ensures sid !in svc.states ==> r == ContentError(NoPresentation)
    ensures sid in svc.states && n !in svc.states[sid].slideContents ==>
              r == ContentError("Slide " + IntToString(n) + " not found")
    ensures r.Content? <==> sid in svc.states && n in svc.states[sid].slideContents
    ensures r.Content? ==> r.text == svc.states[sid].slideContents[n]
  {
    if sid !in svc.states then ContentError(NoPresentation)
    else if n !in svc.states[sid].slideContents then ContentError("Slide " + IntToString(n) + " not found")
    else Content(svc.states[sid].slideContents[n])
  }

  // ------------------------------------------------------------ lemmas

  /** Setup, advance, set and end all keep the presenter consistent with the
      current slide and keep the slide in bounds. */
  lemma NavigationKeepsInvariants(svc: Service, sid: string, n: int)
    requires sid in svc.states && PresenterConsistent(svc.states[sid]) && InBounds(svc.states[sid])
    ensures var a := AdvanceSlide(svc, sid).0; PresenterConsistent(a.states[sid]) && InBounds(a.states[sid])
    ensures var b := SetSlide(svc, sid, n).0; PresenterConsistent(b.states[sid]) && InBounds(b.states[sid])
    ensures var e := EndPresentation(svc, sid).0; PresenterConsistent(e.states[sid]) && InBounds(e.states[sid])
  {
  }

  /** `k` calls of `advance_slide` in a row. */
  function AdvanceTimes(svc: Service, sid: string, k: nat): Service
    decreases k
  {
    if k == 0 then svc else AdvanceTimes(AdvanceSlide(svc, sid).0, sid, k - 1)
  }

  /** Advancing `k` times from slide `c` lands on slide `c + k` as long as
      that does not pass the last slide, and nothing but the slide and the
      presenter changes. */
  lemma {:induction false} AdvanceTimesLands(svc: Service, sid: string, k: nat)
    requires sid in svc.states && PresenterConsistent(svc.states[sid])
    requires svc.states[sid].currentSlide + k <= svc.states[sid].totalSlides
    ensures var r := AdvanceTimes(svc, sid, k);
            && sid in r.states
            && r.states[sid] == MoveTo(svc.states[sid], svc.states[sid].currentSlide + k)
            && r.transcriptions == svc.transcriptions && r.history == svc.history
    decreases k
  {
    if k > 0 {
      var s1 := AdvanceSlide(svc, sid).0;
      AdvanceTimesLands(s1, sid, k - 1);
    }
  }

  /** Once the last slide is reached, advancing is a no-op returning the
      "last slide" error, whatever the active flag says. */
  lemma AdvancePastEndIsStable(svc: Service, sid: string)
    requires sid in svc.states && svc.states[sid].currentSlide >= svc.states[sid].totalSlides
    ensures AdvanceSlide(svc, sid) == (svc, SlideError(AtLastSlide))
    ensures var e := EndPresentation(svc, sid).0; AdvanceSlide(e, sid) == (e, SlideError(AtLastSlide))
  {
  }

  /** Ending keeps everything but the flag, and advancing still works after
      the end: the flag is not consulted. */
  lemma AdvanceIgnoresActiveFlag(svc: Service, sid: string)
    requires sid in svc.states && svc.states[sid].currentSlide < svc.states[sid].totalSlides
    ensures var e := EndPresentation(svc, sid).0;
            var a := AdvanceSlide(e, sid);
            a.1.SlideInfo? && a.0.states[sid].currentSlide == svc.states[sid].currentSlide + 1 &&
            !a.0.states[sid].active
  {
  }

  // ------------------------------------------------------- transcriptions

  /** `record_presentation_transcription`. */
  function RecordTranscription(svc: Service, sid: string, slide: int, text: string): (r: Service)
    ensures r.states == svc.states && r.history == svc.history
    ensures sid in r.transcriptions && slide in r.transcriptions[sid]
    ensures var before := if sid in svc.transcriptions then svc.transcriptions[sid] else map[];
            && (slide in before ==> r.transcriptions[sid][slide] == before[slide] + "\n" + text)
            && (slide !in before ==> r.transcriptions[sid][slide] == text)
            && r.transcriptions[sid].Keys == before.Keys + {slide}
            && (forall n :: n in before && n != slide ==> r.transcriptions[sid][n] == before[n])
    ensures forall s :: s != sid ==> (s in r.transcriptions <==> s in svc.transcriptions)
    ensures forall s :: s != sid && s in svc.transcriptions ==> r.transcriptions[s] == svc.transcriptions[s]
  {
    var ledger := if sid in svc.transcriptions then svc.transcriptions[sid] else map[];
    var entry := if slide in ledger then ledger[slide] + "\n" + text else text;
    svc.(transcriptions := svc.transcriptions[sid := ledger[slide := entry]])
  }

  /** Two recordings for a fresh slide leave both utterances, in order,
      separated by one line break; the ledger entry only ever grows at the
      end. */
  lemma RecordTwice(svc: Service, sid: string, slide: int, a: string, b: string)
    requires sid !in svc.transcriptions || slide !in svc.transcriptions[sid]
    ensures RecordTranscription(RecordTranscription(svc, sid, slide, a), sid, slide, b)
              .transcriptions[sid][slide] == a + "\n" + b
  {
  }

  lemma RecordExtends(svc: Service, sid: string, slide: int, text: string)
    requires sid in svc.transcriptions && slide in svc.transcriptions[sid]
    ensures StartsWith(RecordTranscription(svc, sid, slide, text).transcriptions[sid][slide],
                       svc.transcriptions[sid][slide])
  {
    var before := svc.transcriptions[sid][slide];
    var after := RecordTranscription(svc, sid, slide, text).transcriptions[sid][slide];
    assert after == before + ("\n" + text);
    assert after[..|before|] == before;
  }

  /** The side effect of `process_audio`: while a presentation is active and
      it is the human's turn, the transcribed text is recorded for the
      current slide. */
  function NoteTranscribedAudio(svc: Service, sid: string, text: string): (r: Service)
    ensures (sid in svc.states && svc.states[sid].active && svc.states[sid].currentPresenter == Human) ==>
              r == RecordTranscription(svc, sid, svc.states[sid].currentSlide, text)
    ensures !(sid in svc.states && svc.states[sid].active && svc.states[sid].currentPresenter == Human) ==>
              r == svc
  {
    if sid in svc.states && svc.states[sid].active && svc.states[sid].currentPresenter == Human then
      RecordTranscription(svc, sid, svc.states[sid].currentSlide, text)
    else svc
  }

  // ---------------------------------------------------------------- voice

  const YoungMaleVoice := "yoZ06aMxZJJ28mfd3POQ"
  const YoungFemaleVoice := "EXAVITQu4vr4xnSDxMaL"
  const MatureMaleVoice := "pNInz6obpgDQGcFmaJgB"
  const MatureFemaleVoice := "21m00Tcm4TlvDq8ikWAM"
  const DefaultVoice := "21m00Tcm4TlvDq8ikWAM"

  const VoiceOptions: map<string, string> := map[
    "young_male" := YoungMaleVoice, "young_female" := YoungFemaleVoice,
    "mature_male" := MatureMaleVoice, "mature_female" := MatureFemaleVoice,
    "default" := DefaultVoice]

  /** `select_voice_for_persona`: build the key from the age bracket and the
      lower-cased gender (male when absent), falling back to the male key of
      the bracket when there is no such entry. */
  function SelectVoice(p: Persona): (voice: string)
    ensures voice in VoiceOptions.Values
  {
    var g := Lower(p.gender.GetOr("male"));
    var bracket := if p.age < 25 then "young_" else "mature_";
    var key := if bracket + g in VoiceOptions then bracket + g else bracket + "male";
    if key in VoiceOptions then VoiceOptions[key] else VoiceOptions["default"]
  }

  /** The voice depends only on the age bracket and on whether the gender
      lower-cases to "female"; every other gender, and none, picks the male
      voice of the bracket. */
  lemma SelectVoiceClassifies(p: Persona)
    ensures var female := p.gender.Some? && Lower(p.gender.value) == "female";
            SelectVoice(p) == (if p.age < 25 then (if female then YoungFemaleVoice else YoungMaleVoice)
                               else (if female then MatureFemaleVoice else MatureMaleVoice))
  {
    var g := Lower(p.gender.GetOr("male"));
    assert Lower("male") == "male";
    var bracket := if p.age < 25 then "young_" else "mature_";
    var k := bracket + g;
    if g == "female" {
      if p.age < 25 {
        assert bracket == "young_";
        assert k == "young_" + "female" == "young_female";
      } else {
        assert bracket == "mature_";
        assert k == "mature_" + "female" == "mature_female";
      }
    } else if g == "male" {
      if p.age < 25 {
        assert bracket == "young_";
        assert k == "young_" + "male" == "young_male";
      } else {
        assert bracket == "mature_";
        assert k == "mature_" + "male" == "mature_male";
      }
    } else {
      assert k[..|bracket|] == bracket && k[|bracket|..] == g;
      assert k !in VoiceOptions by {
        assert k[0] == bracket[0];
        assert k[0] == 'y' ==> bracket == "young_";
        assert k[0] == 'm' ==> bracket == "mature_";
      }
      assert bracket + "male" == (if p.age < 25 then "young_male" else "mature_male");
    }
  }

  // ------------------------------------------------------------- AI turn

  /** What the slide-presentation generator produced: text, a timeout, or
      an error. */
  datatype Generation = Generated(text: string) | TimedOut | GenerationFailed

  function HandoffText(slide: int): string {
    "Now it's your turn to present slide " + IntToString(slide) + ". I'll listen and provide feedback afterwards."
  }

  function TimeoutText(slide: int): string {
    "I'll now present slide " + IntToString(slide) + ". " +
    "This slide covers key points related to our topic. " +
    "Let me highlight the main ideas here."
  }

  function TroubleText(slide: int): string {
    "I'm having trouble presenting slide " + IntToString(slide) + ". Let's move on to the next slide."
  }

  /** `process_presentation_turn`: the text and audio for one slide. It
      records the presenter of `slide` (not of the current slide) in the
      state; the generator and the speech synthesiser are parameters. */
  function PresentationTurn(svc: Service, sid: string, slide: int,
                            generate: (Persona, int, string) -> Generation,
                            speak: (string, Persona) -> seq<bv8>): (r: (Service, string, seq<bv8>))
    ensures sid !in svc.states ==> r == (svc, "No active presentation found.", [])
    ensures sid in svc.states ==> sid in r.0.states
    ensures sid in svc.states && slide !in svc.states[sid].slideContents ==>
              r == (svc, "Slide " + IntToString(slide) + " not found.", [])
    ensures sid in svc.states && slide in svc.states[sid].slideContents ==>
              var st := svc.states[sid];
              && r.0 == svc.(states := svc.states[sid := st.(currentPresenter := r.0.states[sid].currentPresenter)])
              && (r.0.states[sid].currentPresenter == Human <==> HumanSlide(slide, st.presenterRanges))
              && (HumanSlide(slide, st.presenterRanges) ==> r.1 == HandoffText(slide) && r.2 == speak(r.1, st.persona))
              && (!HumanSlide(slide, st.presenterRanges) ==>
                    match generate(st.persona, slide, st.slideContents[slide])
                    case Generated(t) => r.1 == t && r.2 == speak(t, st.persona)
                    case TimedOut => r.1 == TimeoutText(slide) && r.2 == speak(r.1, st.persona)
                    case GenerationFailed => r.1 == TroubleText(slide) && r.2 == [])
  {
    if sid !in svc.states then (svc, "No active presentation found.", [])
    else
      var st := svc.states[sid];
      if slide !in st.slideContents then (svc, "Slide " + IntToString(slide) + " not found.", [])
      else
        var who := PresenterFor(slide, st.presenterRanges);
        var svc' := svc.(states := svc.states[sid := st.(currentPresenter := who)]);
        if who == Human then
          var t := HandoffText(slide);
          (svc', t, speak(t, st.persona))
        else
          match generate(st.persona, slide, st.slideContents[slide])
          case Generated(t) => (svc', t, speak(t, st.persona))
          case TimedOut => var t := TimeoutText(slide); (svc', t, speak(t, st.persona))
          case GenerationFailed => (svc', TroubleText(slide), [])
  }

  /** The AI turn for the current slide keeps the presenter consistent. */
  lemma TurnKeepsPresenterConsistent(svc: Service, sid: string,
                                     generate: (Persona, int, string) -> Generation,
                                     speak: (string, Persona) -> seq<bv8>)
    requires sid in svc.states && PresenterConsistent(svc.states[sid])
    ensures var r := PresentationTurn(svc, sid, svc.states[sid].currentSlide, generate, speak).0;
            PresenterConsistent(r.states[sid])
  {
  }

  // ------------------------------------------------------------- feedback

  /** One "Slide n: text" paragraph of the combined feedback input. */
  function SlideParagraph(n: int, text: string): (r: string)
    ensures |r| > 0
  {
    "Slide " + IntToString(n) + ": " + text + "\n\n"
  }

  /** The paragraphs for the requested slides found in `texts`, in request
      order. */
  function Combine(slides: seq<int>, texts: map<int, string>): string
  {
    if |slides| == 0 then ""
    else (if slides[0] in texts then SlideParagraph(slides[0], texts[slides[0]]) else "") +
         Combine(slides[1..], texts)
  }

  /** The combination is empty exactly when none of the requested slides has
      an entry. */
  lemma {:induction false} CombineEmptyIff(slides: seq<int>, texts: map<int, string>)
    ensures Combine(slides, texts) == "" <==> forall i :: 0 <= i < |slides| ==> slides[i] !in texts
  {
    if |slides| > 0 {
      CombineEmptyIff(slides[1..], texts);
      assert forall i :: 1 <= i < |slides| ==> slides[i] == slides[1..][i - 1];
    }
  }

  datatype FeedbackReply =
    | FeedbackFailure(error: string, feedbackText: string)
    | FeedbackReport(feedbackText: string, structured: bool, slidesAnalyzed: seq<int>)

  const NoTranscriptions := "No presentation transcriptions found for this session"
  const NoSlideTranscriptions := "No transcriptions found for the specified slides"
  const CannotGiveFeedback := "Unable to provide feedback without presentation recording."

  /** The feedback guards of `generate_presentation_feedback`, then the
      feedback service, or a direct model call when the service fails (its
      structured part is then the fixed placeholder). */
  function Feedback(svc: Service, sid: string, slides: seq<int>, contents: map<int, string>,
                    service: (string, string) -> Option<string>,
                    direct: (string, string) -> string): (r: FeedbackReply)
    ensures sid !in svc.transcriptions ==> r == FeedbackFailure(NoTranscriptions, CannotGiveFeedback)
    ensures sid in svc.transcriptions && (forall i :: 0 <= i < |slides| ==> slides[i] !in svc.transcriptions[sid]) ==>
              r == FeedbackFailure(NoSlideTranscriptions, CannotGiveFeedback)
    ensures r.FeedbackReport? <==>
              sid in svc.transcriptions && exists i :: 0 <= i < |slides| && slides[i] in svc.transcriptions[sid]
    ensures r.FeedbackReport? ==>
              var said := Combine(slides, svc.transcriptions[sid]);
              var shown := Combine(slides, contents);
              && r.slidesAnalyzed == slides
              && (service(said, shown).Some? ==> r.feedbackText == service(said, shown).value && r.structured)
              && (service(said, shown).None? ==> r.feedbackText == direct(shown, said) && !r.structured)
  {
    if sid !in svc.transcriptions then FeedbackFailure(NoTranscriptions, CannotGiveFeedback)
    else
      var said := Combine(slides, svc.transcriptions[sid]);
      var shown := Combine(slides, contents);
      CombineEmptyIff(slides, svc.transcriptions[sid]);
      if said == "" then FeedbackFailure(NoSlideTranscriptions, CannotGiveFeedback)
      else
        match service(said, shown)
        case Some(t) => FeedbackReport(t, true, slides)
        case None => FeedbackReport(direct(shown, said), false, slides)
  }
}
