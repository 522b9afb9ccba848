/** Flashcard generation around the language model: how many cards each
    chunk is asked for, when generation stops, how the cards are enhanced in
    batches with fallbacks, which cards are stored, and the last-resort
    parser that reads "Front: … / Back: …" text. Cards are JSON values, as
    the dictionaries the model returns; the model itself is a function
    parameter. */
module Flashcards {
  import opened Common

  /** Python truthiness of a JSON value. */
  predicate Truthy(v: Json) {
    match v
    case JNull => false
    case JBool(b) => b
    case JInt(i) => i != 0
    case JStr(s) => s != ""
    case JArr(items) => |items| > 0
    case JObj(members) => |members| > 0
  }

  /** `card.get(key)` is truthy. */
  predicate Has(card: Json, key: string) {
    card.Get(key).Some? && Truthy(card.Get(key).value)
  }

  type Members = seq<(string, Json)>

  /** `d[key] = v` on a dictionary: an existing key keeps its place and takes
      the new value; a new key goes at the end. */
  function SetMember(members: Members, key: string, v: Json): (r: Members)
    ensures Lookup(r, key) == Some(v)
    ensures forall k :: k != key ==> Lookup(r, k) == Lookup(members, k)
    ensures |r| == |members| || |r| == |members| + 1
  {
    if |members| == 0 then [(key, v)]
    else if members[0].0 == key then [(key, v)] + members[1..]
    else [members[0]] + SetMember(members[1..], key, v)
  }

  // ----------------------------------------------------------------- plan

  /** Cards asked of each chunk: the even share plus one, kept between two
      and five. Python's `//` floors, as Dafny's `/` does for a positive
      divisor. */
  function CardsPerChunk(cardCount: int, chunkCount: nat): (r: int)
    requires chunkCount > 0
    ensures 2 <= r <= 5
    ensures 2 <= cardCount / chunkCount + 1 <= 5 ==> r == cardCount / chunkCount + 1
    ensures cardCount / chunkCount + 1 < 2 ==> r == 2
    ensures cardCount / chunkCount + 1 > 5 ==> r == 5
  {
    var share := cardCount / chunkCount + 1;
    if share > 5 then 5 else if share < 2 then 2 else share
  }

  /** When the target is below five cards a chunk, asking every chunk for
      its share asks for more cards than the target. */
  lemma PlanCoversTarget(cardCount: nat, chunkCount: nat)
    requires chunkCount > 0 && cardCount < 5 * chunkCount
    ensures CardsPerChunk(cardCount, chunkCount) * chunkCount > cardCount
  {
    var q := cardCount / chunkCount;
    assert cardCount == q * chunkCount + cardCount % chunkCount;
    assert q < 5;
    assert (q + 1) * chunkCount == q * chunkCount + chunkCount;
    var r := CardsPerChunk(cardCount, chunkCount);
    assert r >= q + 1;
    assert r * chunkCount >= (q + 1) * chunkCount;
  }

  // ----------------------------------------------------------- generation

  /** The cards the first chunks give, in chunk order. */
  function CardsOf(chunks: seq<string>, perChunk: int, generate: (string, int) -> seq<Json>): seq<Json>
  {
    if |chunks| == 0 then []
    else CardsOf(chunks[..|chunks| - 1], perChunk, generate) + generate(chunks[|chunks| - 1], perChunk)
  }

  /** The generation loop: each chunk in turn is asked for its share, and
      the loop stops after the first chunk that brings the total to the
      target. */
  method GenerateCards(chunks: seq<string>, cardCount: int, generate: (string, int) -> seq<Json>)
    returns (cards: seq<Json>, used: nat)
    requires |chunks| > 0
    ensures 1 <= used <= |chunks|
    ensures cards == CardsOf(chunks[..used], CardsPerChunk(cardCount, |chunks|), generate)
    ensures used < |chunks| ==> |cards| >= cardCount
    ensures forall j :: 1 <= j < used ==> |CardsOf(chunks[..j], CardsPerChunk(cardCount, |chunks|), generate)| < cardCount
    ensures cardCount <= 0 ==> used == 1
  {
    var perChunk := CardsPerChunk(cardCount, |chunks|);
    cards := [];
    used := 0;
    while used < |chunks|
      invariant used <= |chunks|
      invariant cards == CardsOf(chunks[..used], perChunk, generate)
      invariant forall j :: 1 <= j <= used ==> |CardsOf(chunks[..j], perChunk, generate)| < cardCount
      invariant cardCount <= 0 ==> used == 0
    {
      assert chunks[..used + 1][..used] == chunks[..used];
      cards := cards + generate(chunks[used], perChunk);
      used := used + 1;
      if |cards| >= cardCount {
        return;
      }
    }
  }

  // ---------------------------------------------------------- enhancement

  /** What became of one batch sent for enhancement: the model call raised,
      its answer could not be parsed, or it parsed to a list of cards. */
  datatype BatchReply = CallFailed | Unparsed | Parsed(cards: seq<Json>)

  const EnhanceLimit := 50
  const EnhanceBatch := 10

  /** The two defaults filled in when there are too many cards to enhance. */
  function FillDefaults(card: Json): (r: Json)
    requires card.JObj?
    ensures r.JObj? && Has(r, "difficulty") && Has(r, "category")
    ensures Has(card, "difficulty") ==> r.Get("difficulty") == card.Get("difficulty")
    ensures Has(card, "category") ==> r.Get("category") == card.Get("category")
    ensures forall k :: k != "difficulty" && k != "category" ==> r.Get(k) == card.Get(k)
  {
    var m := if Has(card, "difficulty") then card.members else SetMember(card.members, "difficulty", JStr("medium"));
    var m2 := if Has(JObj(m), "category") then m else SetMember(m, "category", JStr("general"));
    JObj(m2)
  }

  /** A batch's contribution: the parsed cards when there are any, else the
      batch as it was. */
  function BatchResult(batch: seq<Json>, reply: BatchReply): (r: seq<Json>)
    ensures r == batch || (reply.Parsed? && r == reply.cards && |r| > 0)
  {
    if reply.Parsed? && |reply.cards| > 0 then reply.cards else batch
  }

  /** `enhance_flashcards_with_learning_techniques`. `None` stands for the
      error raised when more than fifty cards include one that is not an
      object. */
  function Enhance(cards: seq<Json>, enhance: seq<Json> -> BatchReply): (r: Option<seq<Json>>)
    ensures |cards| == 0 ==> r == Some([])
    ensures |cards| > EnhanceLimit ==> (r.Some? <==> forall i :: 0 <= i < |cards| ==> cards[i].JObj?)
    ensures |cards| > EnhanceLimit && r.Some? ==>
              |r.value| == |cards| &&
              forall i :: 0 <= i < |cards| ==> Has(r.value[i], "difficulty") && Has(r.value[i], "category")
    ensures 0 < |cards| <= EnhanceLimit ==> r.Some? && (r.value == cards || 5 * |r.value| >= 4 * |cards|)
    ensures 0 < |cards| <= EnhanceLimit ==> r.value == cards || r.value == BatchedResult(cards, enhance)
  {
    if |cards| == 0 then Some([])
    else if |cards| > EnhanceLimit then
      if forall i :: 0 <= i < |cards| ==> cards[i].JObj? then
        Some(seq(|cards|, i requires 0 <= i < |cards| && cards[i].JObj? => FillDefaults(cards[i])))
      else None
    else
      Some(EnhanceInBatches(cards, enhance))
  }

  /** The batches' contributions put back together, in batch order. */
  function BatchedResult(cards: seq<Json>, enhance: seq<Json> -> BatchReply): seq<Json> {
    var batches := Batches(cards, EnhanceBatch);
    Flatten(seq(|batches|, i requires 0 <= i < |batches| => BatchResult(batches[i], enhance(batches[i]))))
  }

  /** Some batch's model call raised. */
  predicate AnyCallFails(cards: seq<Json>, enhance: seq<Json> -> BatchReply) {
    exists i :: 0 <= i < |Batches(cards, EnhanceBatch)| && enhance(Batches(cards, EnhanceBatch)[i]).CallFailed?
  }

  /** The batched path: batches of ten, each replaced by its enhancement or
      kept; a model call that raises, or a result more than a fifth short,
      gives back all the original cards. */
  function EnhanceInBatches(cards: seq<Json>, enhance: seq<Json> -> BatchReply): (r: seq<Json>)
    ensures r == cards || 5 * |r| >= 4 * |cards|
    ensures AnyCallFails(cards, enhance) ==> r == cards
    ensures !AnyCallFails(cards, enhance) && 5 * |BatchedResult(cards, enhance)| >= 4 * |cards| ==>
              r == BatchedResult(cards, enhance)
    ensures !AnyCallFails(cards, enhance) && 5 * |BatchedResult(cards, enhance)| < 4 * |cards| ==> r == cards
  {
    if AnyCallFails(cards, enhance) then cards
    else
      var enhanced := BatchedResult(cards, enhance);
      if 5 * |enhanced| < 4 * |cards| then cards else enhanced
  }

  /** A model whose answers never parse changes nothing: every batch is
      kept, and the batches put back together are the cards. */
  lemma {:induction false} EnhanceWithUselessModel(cards: seq<Json>, enhance: seq<Json> -> BatchReply)
    requires 0 < |cards| <= EnhanceLimit
    requires forall b :: enhance(b) == Unparsed
    ensures Enhance(cards, enhance) == Some(cards)
  {
    var batches := Batches(cards, EnhanceBatch);
    var kept := seq(|batches|, i requires 0 <= i < |batches| => BatchResult(batches[i], enhance(batches[i])));
    assert kept == batches;
  }

  /** Batches that all come back parsed are taken as they come, as long as
      no more than a fifth of the cards is lost. */
  lemma EnhanceTakesParsedCards(cards: seq<Json>, enhance: seq<Json> -> BatchReply)
    requires 0 < |cards| <= EnhanceLimit
    requires forall b :: enhance(b).Parsed? && |enhance(b).cards| == |b|
    ensures |Enhance(cards, enhance).value| == |cards|
  {
    var batches := Batches(cards, EnhanceBatch);
    var got := seq(|batches|, i requires 0 <= i < |batches| => BatchResult(batches[i], enhance(batches[i])));
    FlattenSameLengths(got, batches);
  }

  lemma {:induction false} FlattenSameLengths<T>(a: seq<seq<T>>, b: seq<seq<T>>)
    requires |a| == |b| && forall i :: 0 <= i < |a| ==> |a[i]| == |b[i]|
    ensures |Flatten(a)| == |Flatten(b)|
  {
    if |a| > 0 {
      FlattenSameLengths(a[1..], b[1..]);
    }
  }

  // -------------------------------------------------------------- storage

  /** A stored flashcard record. */
  datatype StoredCard = StoredCard(front: Json, back: Json, difficulty: Json, category: Json)

  /** A card is stored when it is an object with a truthy front and back. */
  predicate Storable(card: Json) {
    card.JObj? && Has(card, "front") && Has(card, "back")
  }

  function Store(card: Json): (r: StoredCard)
    requires Storable(card)
    ensures r.front == card.Get("front").value && r.back == card.Get("back").value
    ensures Truthy(r.front) && Truthy(r.back)
    ensures r.difficulty == card.Get("difficulty").GetOr(JStr("medium"))
    ensures r.category == card.Get("category").GetOr(JStr("general"))
  {
    StoredCard(card.Get("front").value, card.Get("back").value,
               card.Get("difficulty").GetOr(JStr("medium")), card.Get("category").GetOr(JStr("general")))
  }

  /** The cards the storage loop keeps, in order. */
  function StorableCards(cards: seq<Json>): (r: seq<Json>)
    ensures |r| <= |cards|
    ensures forall c :: c in r <==> c in cards && Storable(c)
  {
    if |cards| == 0 then []
    else if Storable(cards[0]) then [cards[0]] + StorableCards(cards[1..])
    else StorableCards(cards[1..])
  }

  /** The storage loop: cards that cannot be stored are skipped, the rest
      stored in order. */
  function StoreCards(cards: seq<Json>): (r: seq<StoredCard>)
    ensures |r| == |StorableCards(cards)|
    ensures forall i :: 0 <= i < |r| ==> Truthy(r[i].front) && Truthy(r[i].back)
    ensures |r| == |cards| <==> forall i :: 0 <= i < |cards| ==> Storable(cards[i])
  {
    if |cards| == 0 then []
    else
      var rest := StoreCards(cards[1..]);
      if Storable(cards[0]) then
        [Store(cards[0])] + rest
      else
        rest
  }

  /** The i-th stored record is the i-th storable card, stored. */
  lemma {:induction false} StoreCardsAt(cards: seq<Json>, i: nat)
    requires i < |StorableCards(cards)|
    ensures Storable(StorableCards(cards)[i])
    ensures StoreCards(cards)[i] == Store(StorableCards(cards)[i])
  {
    assert |cards| > 0;
    if !Storable(cards[0]) {
      StoreCardsAt(cards[1..], i);
    } else if i > 0 {
      StoreCardsAt(cards[1..], i - 1);
    }
  }

  /** Storing distributes over concatenation: each card is judged alone. */
  lemma {:induction false} StoreCardsAppend(a: seq<Json>, b: seq<Json>)
    ensures StoreCards(a + b) == StoreCards(a) + StoreCards(b)
  {
    if |a| > 0 {
      var head := if Storable(a[0]) then [Store(a[0])] else [];
      assert (a + b)[0] == a[0] && (a + b)[1..] == a[1..] + b;
      StoreCardsAppend(a[1..], b);
      AppendAssoc(head, StoreCards(a[1..]), StoreCards(b));
    } else {
      assert a + b == b;
    }
  }

  // ------------------------------------------------------- manual parsing

  /** The key and value of a "key: value" line, split at the first colon,
      stripped, the key lower-cased. */
  function KeyValue(line: string): (r: Option<(string, string)>)
    ensures r.None? <==> ':' !in line
  {
    match IndexOf(line, ':')
    case None => None
    case Some(k) => Some((Lower(Strip(line[..k])), Strip(line[k + 1..])))
  }

  /** The field a key names: the first of front, back, difficulty, and
      category (or a tag) that the key contains. */
  function FieldFor(key: string): (r: Option<string>)
    ensures r.Some? ==> r.value in {"front", "back", "difficulty", "category"}
  {
    if Contains(key, "front") then Some("front")
    else if Contains(key, "back") then Some("back")
    else if Contains(key, "difficulty") then Some("difficulty")
    else if Contains(key, "category") || Contains(key, "tag") then Some("category")
    else None
  }

  /** One line of a card section: a "key: value" line whose key names a
      field sets that field; other lines change nothing. */
  function ParseLine(card: Members, line: string): (r: Members)
    ensures forall k :: k !in {"front", "back", "difficulty", "category"} ==> Lookup(r, k) == Lookup(card, k)
  {
    match KeyValue(line)
    case None => card
    case Some((key, value)) =>
      match FieldFor(key)
      case Some(field) => SetMember(card, field, JStr(value))
      case None => card
  }

  function ParseLines(card: Members, lines: seq<string>): Members
    decreases |lines|
  {
    if |lines| == 0 then card else ParseLines(ParseLine(card, lines[0]), lines[1..])
  }

  /** A section opens a card when it mentions "front:" or "front text:" in
      any case. */
  predicate OpensCard(section: string) {
    Contains(Lower(section), "front:") || Contains(Lower(section), "front text:")
  }

  predicate Complete(card: Members) {
    Lookup(card, "front").Some? && Lookup(card, "back").Some?
  }

  /** A card the parser emits: an object that has both a front and a back. */
  predicate ParsedCard(c: Json) {
    c.JObj? && c.Get("front").Some? && c.Get("back").Some?
  }

  function Flush(done: seq<Json>, current: Members): (r: seq<Json>)
    ensures Complete(current) ==> r == done + [JObj(current)]
    ensures !Complete(current) ==> r == done
  {
    if Complete(current) then done + [JObj(current)] else done
  }

  /** The walk over the sections: a section that opens a card flushes the
      card so far, when complete, and starts a new one from its lines; other
      sections are passed over. */
  function ParseSections(sections: seq<string>, done: seq<Json>, current: Members): (r: seq<Json>)
    requires forall i :: 0 <= i < |done| ==> ParsedCard(done[i])
    ensures forall i :: 0 <= i < |r| ==> ParsedCard(r[i])
    ensures |r| <= |done| + |sections| + 1
    decreases |sections|
  {
    if |sections| == 0 then Flush(done, current)
    else if OpensCard(sections[0]) then
      ParseSections(sections[1..], Flush(done, current), ParseLines([], SplitOn(sections[0], "\n")))
    else ParseSections(sections[1..], done, current)
  }

  /** The last-resort parser of `extract_json_from_llm_response`: sections
      separated by blank lines, each card emitted only with both a front and
      a back. */
  function ManualParse(response: string): (r: seq<Json>)
    ensures forall i :: 0 <= i < |r| ==> ParsedCard(r[i])
  {
    ParseSections(SplitOn(response, "\n\n"), [], [])
  }

  /** `extract_json_from_llm_response`: a JSON array found in the answer
      wins, then the individual objects found in it, then the manual
      parser. Finding and decoding JSON in text are parameters. */
  function ExtractCards(response: string, findArray: string -> Option<seq<Json>>,
                        findObjects: string -> seq<Json>): (r: seq<Json>)
    ensures findArray(response).Some? ==> r == findArray(response).value
    ensures findArray(response).None? && |findObjects(response)| > 0 ==> r == findObjects(response)
    ensures findArray(response).None? && |findObjects(response)| == 0 ==> r == ManualParse(response)
  {
    if findArray(response).Some? then findArray(response).value
    else if |findObjects(response)| > 0 then findObjects(response)
    else ManualParse(response)
  }

  // The round trip of the manual parser, one literal fact at a time.

  lemma FrontHead()
    ensures ':' !in "Front" && Lower(Strip("Front")) == "front"
  {
    assert TrimStart("Front") == "Front";
    assert TrimEnd("Front") == "Front";
  }

  lemma FrontField()
    ensures FieldFor("front") == Some("front")
  {
    StartsWithContains("front", "front");
  }

  lemma BackHead()
    ensures ':' !in "Back" && Lower(Strip("Back")) == "back"
  {
    assert TrimStart("Back") == "Back";
    assert TrimEnd("Back") == "Back";
  }

  lemma BackField()
    ensures FieldFor("back") == Some("back")
  {
    MissingFirstChar("back", "front");
    StartsWithContains("back", "back");
  }

  /** A leading space goes with the stripping. */
  lemma StripLeadingSpace(f: string)
    requires Strip(f) == f
    ensures Strip(" " + f) == f
  {
    var s := " " + f;
    assert s[1..] == f;
    assert TrimStart(s) == TrimStart(f);
    assert Strip(s) == TrimEnd(TrimStart(f));
  }

  lemma KeyValueAt(line: string, k: nat)
    requires k < |line| && line[k] == ':' && ':' !in line[..k]
    ensures KeyValue(line) == Some((Lower(Strip(line[..k])), Strip(line[k + 1..])))
  {
    IndexOfAt(line, ':', k);
  }

  lemma HeadKeyValue(head: string, v: string)
    requires ':' !in head
    ensures KeyValue(head + ": " + v) == Some((Lower(Strip(head)), Strip((head + ": " + v)[|head| + 1..])))
  {
    var line := head + ": " + v;
    var k := |head|;
    assert line[..k] == head;
    assert line[k] == ':';
    KeyValueAt(line, k);
  }

  /** After the head and its colon comes a space and the value. */
  lemma AfterColon(head: string, v: string)
    ensures (head + ": " + v)[|head| + 1..] == " " + v
  {
    var line := head + ": " + v;
    assert |line[|head| + 1..]| == |" " + v|;
    forall i | 0 <= i < |" " + v|
      ensures line[|head| + 1..][i] == (" " + v)[i]
    {
    }
  }

  lemma HeadValue(head: string, v: string)
    requires ':' !in head && Strip(v) == v
    ensures KeyValue(head + ": " + v) == Some((Lower(Strip(head)), v))
  {
    var line := head + ": " + v;
    var tail := line[|head| + 1..];
    HeadKeyValue(head, v);
    AfterColon(head, v);
    StripLeadingSpace(v);
    assert Strip(tail) == v;
  }

  /** "<Head>: <v>" reads as the head's key and `v`, for a stripped `v`. */
  lemma HeadLine(head: string, key: string, v: string)
    requires ':' !in head && Strip(v) == v && Lower(Strip(head)) == key
    ensures KeyValue(head + ": " + v) == Some((key, v))
  {
    HeadValue(head, v);
  }

  /** A line whose key names a field sets that field. */
  lemma ParseLineSets(card: Members, line: string, key: string, value: string, field: string)
    requires KeyValue(line) == Some((key, value)) && FieldFor(key) == Some(field)
    ensures ParseLine(card, line) == SetMember(card, field, JStr(value))
  {
  }

  /** A section whose first line starts with "front:" in any case opens a
      card. */
  lemma StartsFront(l1: string, rest: string)
    requires StartsWith(Lower(l1), "front:")
    ensures OpensCard(l1 + rest)
  {
    LowerConcat(l1, rest);
    assert Lower(l1 + rest)[..6] == Lower(l1)[..6];
    StartsWithContains(Lower(l1 + rest), "front:");
  }

  /** A "key: value" line has no line break when neither part has one. */
  lemma SingleLine(head: string, v: string)
    requires '\n' !in head && '\n' !in v
    ensures '\n' !in head + ": " + v
  {
    var line := head + ": " + v;
    forall i | 0 <= i < |line|
      ensures line[i] != '\n'
    {
      if i < |head| {
        assert line[i] == head[i];
      } else if i >= |head| + 2 {
        assert line[i] == v[i - |head| - 2];
      }
    }
  }

  /** Two lines joined by one line break hold no blank line. */
  lemma NoBlankLine(l1: string, l2: string)
    requires '\n' !in l1 && '\n' !in l2
    ensures var s := l1 + "\n" + l2;
            NoSepBefore(s, "\n\n", |s|)
  {
    var s := l1 + "\n" + l2;
    forall i | 0 <= i < |s|
      ensures !OccursAt(s, "\n\n", i)
    {
      if i < |l1| {
        assert s[i] == l1[i];
      } else if i == |l1| {
        if |l2| > 0 {
          assert s[i + 1] == l2[0];
        }
      } else {
        assert s[i] == l2[i - |l1| - 1];
      }
    }
  }

  /** Two lines split apart at their line break. */
  lemma CardLines(l1: string, l2: string)
    requires '\n' !in l1 && '\n' !in l2
    ensures SplitOn(l1 + "\n" + l2, "\n") == [l1, l2]
  {
    assert (l1 + "\n" + l2)[..|l1|] == l1;
    SepCharMissing(l1 + "\n" + l2, "\n", |l1|);
    SplitOffPiece(l1, "\n", l2);
    assert l2[..|l2|] == l2;
    SepCharMissing(l2, "\n", |l2|);
    SplitWithoutSeparator(l2, "\n");
  }

  lemma TwoLines(l1: string, l2: string)
    ensures ParseLines([], [l1, l2]) == ParseLine(ParseLine([], l1), l2)
  {
    var c1 := ParseLine([], l1);
    assert [l1, l2][1..] == [l2];
    assert ParseLines([], [l1, l2]) == ParseLines(c1, [l2]);
    assert [l2][1..] == [];
    assert ParseLines(c1, [l2]) == ParseLines(ParseLine(c1, l2), []);
  }

  /** A single section that opens a complete card gives just that card. */
  lemma OneSection(s: string, card: Members)
    requires OpensCard(s) && ParseLines([], SplitOn(s, "\n")) == card && Complete(card)
    ensures ParseSections([s], [], []) == [JObj(card)]
  {
    assert Flush([], []) == [];
    assert [s][1..] == [];
  }

  lemma AppendBack(f: string, b: string)
    ensures SetMember([], "front", JStr(f)) == [("front", JStr(f))]
    ensures SetMember([("front", JStr(f))], "back", JStr(b)) == [("front", JStr(f)), ("back", JStr(b))]
    ensures Complete([("front", JStr(f)), ("back", JStr(b))])
  {
    assert "front" != "back" by {
      assert "front"[0] != "back"[0];
    }
  }

  /** The lines of a front line and a back line build that card. */
  lemma TwoLineFields(l1: string, l2: string, f: string, b: string)
    requires '\n' !in l1 && '\n' !in l2
    requires KeyValue(l1) == Some(("front", f)) && KeyValue(l2) == Some(("back", b))
    ensures ParseLines([], SplitOn(l1 + "\n" + l2, "\n")) == [("front", JStr(f)), ("back", JStr(b))]
  {
    FrontField();
    BackField();
    ParseLineSets([], l1, "front", f, "front");
    ParseLineSets([("front", JStr(f))], l2, "back", b, "back");
    AppendBack(f, b);
    CardLines(l1, l2);
    TwoLines(l1, l2);
  }

  /** A response that is one section opening a complete card parses to
      that card alone. */
  lemma SingleSection(s: string, card: Members)
    requires SplitOn(s, "\n\n") == [s] && OpensCard(s)
    requires ParseLines([], SplitOn(s, "\n")) == card && Complete(card)
    ensures ManualParse(s) == [JObj(card)]
  {
    OneSection(s, card);
  }

  /** A section whose first line starts with "front:" opens a card. */
  lemma TwoLineOpens(l1: string, l2: string)
    requires StartsWith(Lower(l1), "front:")
    ensures OpensCard(l1 + "\n" + l2)
  {
    StartsFront(l1, "\n" + l2);
    assert l1 + "\n" + l2 == l1 + ("\n" + l2);
  }

  /** Two lines joined by one line break are a single section. */
  lemma TwoLineSection(l1: string, l2: string)
    requires '\n' !in l1 && '\n' !in l2
    ensures SplitOn(l1 + "\n" + l2, "\n\n") == [l1 + "\n" + l2]
  {
    NoBlankLine(l1, l2);
    SplitWithoutSeparator(l1 + "\n" + l2, "\n\n");
  }

  /** A front line followed by a back line parses to that card alone. */
  lemma TwoLineCard(l1: string, l2: string, f: string, b: string)
    requires '\n' !in l1 && '\n' !in l2 && StartsWith(Lower(l1), "front:")
    requires KeyValue(l1) == Some(("front", f)) && KeyValue(l2) == Some(("back", b))
    ensures ManualParse(l1 + "\n" + l2) == [JObj([("front", JStr(f)), ("back", JStr(b))])]
  {
    TwoLineOpens(l1, l2);
    TwoLineSection(l1, l2);
    TwoLineFields(l1, l2, f, b);
    AppendBack(f, b);
    SingleSection(l1 + "\n" + l2, [("front", JStr(f)), ("back", JStr(b))]);
  }

  lemma FrontLineShape(f: string)
    requires '\n' !in f
    ensures '\n' !in "Front" + ": " + f
    ensures StartsWith(Lower("Front" + ": " + f), "front:")
  {
    assert '\n' !in "Front";
    SingleLine("Front", f);
    assert Lower("Front" + ": " + f)[..6] == "front:";
  }

  lemma FrontLineReads(f: string)
    requires Strip(f) == f
    ensures KeyValue("Front" + ": " + f) == Some(("front", f))
  {
    FrontHead();
    HeadLine("Front", "front", f);
  }

  lemma BackLineReads(b: string)
    requires '\n' !in b && Strip(b) == b
    ensures '\n' !in "Back" + ": " + b
    ensures KeyValue("Back" + ": " + b) == Some(("back", b))
  {
    assert '\n' !in "Back";
    SingleLine("Back", b);
    BackHead();
    HeadLine("Back", "back", b);
  }

  /** Writing a card as "Front: f" and "Back: b" on two lines and parsing it
      back gives the card: the parser reads what the expected answer format
      writes. */
  lemma ManualParseRoundTrip(f: string, b: string)
    requires '\n' !in f && '\n' !in b && Strip(f) == f && Strip(b) == b
    ensures ManualParse(("Front" + ": " + f) + "\n" + ("Back" + ": " + b)) == [JObj([("front", JStr(f)), ("back", JStr(b))])]
  {
    FrontLineShape(f);
    FrontLineReads(f);
    BackLineReads(b);
    TwoLineCard("Front" + ": " + f, "Back" + ": " + b, f, b);
  }
}
