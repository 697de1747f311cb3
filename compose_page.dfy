/**
 * The AI-backed conversation screen (the file is named for composing, but it
 * exports a conversation page): polite phrase builders for tiles, icon
 * selection for tile labels, the guard that decides when a dialogue request
 * is scheduled, what of a dialogue response is shown, and the page state its
 * handlers reset.
 */
module ComposePage {
  import opened Wrappers
  import opened JsString
  import ConversationPage

  // ---------------------------------------------------------------------
  // Stored location
  // ---------------------------------------------------------------------

  datatype LocationKey = Home | School | Out

  /** `getStoredLocation`: the three known spellings, and HOME for anything else or nothing stored. */
  function StoredLocation(v: Option<string>): (r: LocationKey)
    ensures v == Some("SCHOOL") <==> r == School
    ensures v == Some("OUT") <==> r == Out
    ensures r == Home <==> v != Some("SCHOOL") && v != Some("OUT")
  {
    match v
    case Some("HOME") => Home
    case Some("SCHOOL") => School
    case Some("OUT") => Out
    case _ => Home
  }

  /** The value `setStoredLocation` writes. */
  function LocationName(l: LocationKey): string
  {
    match l
    case Home => "HOME"
    case School => "SCHOOL"
    case Out => "OUT"
  }

  /** What is written is read back unchanged. */
  lemma StoredLocationRoundTrip(l: LocationKey)
    ensures StoredLocation(Some(LocationName(l))) == l
  {
  }

  // ---------------------------------------------------------------------
  // Phrase builders
  // ---------------------------------------------------------------------

  const PLEASE: string := "Please."
  const CHOICE_SUFFIX: string := ", please."
  const SOMETHING_ELSE: string := "Could I have something else, please?"
  const INSTEAD_PREFIX: string := "Could I have "
  const INSTEAD_SUFFIX: string := " instead, please?"

  /** `phraseChoice`: "Please." for a blank item, else the trimmed item and ", please.". */
  function PhraseChoice(item: string): (r: string)
    ensures Blank(item) ==> r == PLEASE
    ensures !Blank(item) ==> r == Trim(item) + CHOICE_SUFFIX
  {
    var trimmed := Trim(item);
    if trimmed == [] then PLEASE else trimmed + CHOICE_SUFFIX
  }

  /** `phraseInstead` (compose variant): the item trimmed and lower-cased, or the fixed "something else" request. */
  function PhraseInstead(item: string): (r: string)
    ensures Blank(item) ==> r == SOMETHING_ELSE
    ensures !Blank(item) ==> r == INSTEAD_PREFIX + ToLower(Trim(item)) + INSTEAD_SUFFIX
  {
    var trimmed := Trim(item);
    if trimmed == [] then SOMETHING_ELSE else INSTEAD_PREFIX + ToLower(trimmed) + INSTEAD_SUFFIX
  }

  /** Both builders see only the trimmed item, and distinct trimmed items give distinct choices. */
  lemma {:induction false} PhraseChoiceDeterminesItem(a: string, b: string)
    ensures PhraseChoice(a) == PhraseChoice(Trim(a))
    ensures PhraseInstead(a) == PhraseInstead(Trim(a))
    ensures PhraseChoice(a) == PhraseChoice(b) <==> Trim(a) == Trim(b)
  {
    TrimIdempotent(a);
    TrimIdempotent(b);
    var ra, rb := PhraseChoice(a), PhraseChoice(b);
    if ra == rb {
      if Trim(a) != [] && Trim(b) != [] {
        assert Trim(a) == ra[..|ra| - |CHOICE_SUFFIX|];
      }
    }
  }

  /** No item yields the fixed "something else" sentence through the "instead" template. */
  lemma InsteadTemplateNotFixed(l: string)
    ensures INSTEAD_PREFIX + l + INSTEAD_SUFFIX != SOMETHING_ELSE
  {
    var r := INSTEAD_PREFIX + l + INSTEAD_SUFFIX;
    assert |SOMETHING_ELSE| == 36;
    if |l| == 6 {
      assert r[19] == ' ';
      assert SOMETHING_ELSE[19] == 'i';
    }
  }

  /** The fixed "something else" request is produced exactly for a blank item. */
  lemma SomethingElseOnlyWhenBlank(item: string)
    ensures PhraseInstead(item) == SOMETHING_ELSE <==> Blank(item)
  {
    if !Blank(item) {
      InsteadTemplateNotFixed(ToLower(Trim(item)));
    }
  }

  // ---------------------------------------------------------------------
  // Icons
  // ---------------------------------------------------------------------

  const DROPLET: string := "\U{1F4A7}"
  const JUICE_BOX: string := "\U{1F9C3}"
  const MILK_GLASS: string := "\U{1F95B}"
  const HOT_DRINK: string := "\U{2615}"
  const RED_APPLE: string := "\U{1F34E}"
  const BANANA: string := "\U{1F34C}"
  const BREAD: string := "\U{1F35E}"
  const BOWL: string := "\U{1F963}"
  const SANDWICH: string := "\U{1F96A}"
  const PASTA: string := "\U{1F35D}"
  const POULTRY_LEG: string := "\U{1F357}"
  const TOILET: string := "\U{1F6BD}"
  const SOS: string := "\U{1F198}"
  const EYES: string := "\U{1F440}"
  const REPEAT: string := "\U{1F501}"
  const PALETTE: string := "\U{1F3A8}"
  const NOTES: string := "\U{1F3B5}"
  const GAME_PAD: string := "\U{1F3AE}"
  const PARK: string := "\U{1F3DE}\U{FE0F}"
  const WALKER: string := "\U{1F6B6}"

  /** `ICON_MAP`: exact lower-case labels and their icons. */
  const ICON_MAP: map<string, string> := map[
    "water" := DROPLET, "juice" := JUICE_BOX, "apple juice" := JUICE_BOX,
    "orange juice" := JUICE_BOX, "grape juice" := JUICE_BOX, "milk" := MILK_GLASS,
    "tea" := HOT_DRINK, "coffee" := HOT_DRINK,
    "apple" := RED_APPLE, "banana" := BANANA, "bread" := BREAD, "toast" := BREAD,
    "yogurt" := BOWL, "fruit" := RED_APPLE, "sandwich" := SANDWICH, "pasta" := PASTA,
    "chicken" := POULTRY_LEG,
    "toilet" := TOILET, "bathroom" := TOILET, "help" := SOS, "show me" := EYES,
    "again" := REPEAT,
    "drawing" := PALETTE, "draw" := PALETTE, "music" := NOTES, "game" := GAME_PAD,
    "minecraft" := GAME_PAD, "park" := PARK, "walk" := WALKER
  ]

  /** The substring heuristics, in the order they are tried. */
  function HeuristicIcon(t: string): (r: string)
    ensures r == JUICE_BOX <==> Includes(t, "juice")
    ensures r == "" <==>
      (!Includes(t, "juice") && !Includes(t, "water") && !Includes(t, "milk") &&
       !Includes(t, "toilet") && !Includes(t, "bathroom") && !Includes(t, "help") &&
       !Includes(t, "draw") && !Includes(t, "game"))
  {
    if Includes(t, "juice") then JUICE_BOX
    else if Includes(t, "water") then DROPLET
    else if Includes(t, "milk") then MILK_GLASS
    else if Includes(t, "toilet") || Includes(t, "bathroom") then TOILET
    else if Includes(t, "help") then SOS
    else if Includes(t, "draw") then PALETTE
    else if Includes(t, "game") then GAME_PAD
    else ""
  }

  /** The lookup key: the text trimmed, then lower-cased. */
  function IconKey(text: string): string
  {
    ToLower(Trim(text))
  }

  /** `iconForText`, with `ICON_MAP` consulted for its own keys only (see the as-written lookup below). */
  function IconForText(text: string): (r: string)
    ensures Blank(text) ==> r == ""
    ensures !Blank(text) && IconKey(text) in ICON_MAP ==> r == ICON_MAP[IconKey(text)]
    ensures !Blank(text) && IconKey(text) !in ICON_MAP ==> r == HeuristicIcon(IconKey(text))
  {
    IconForKey(IconKey(text))
  }

  /** The body of `iconForText` once the key is computed. */
  function IconForKey(t: string): string
  {
    if t == [] then ""
    else if t in ICON_MAP then ICON_MAP[t]
    else HeuristicIcon(t)
  }

  /** Every icon the lookup gives is one of the map's icons. */
  lemma IconIsKnown(text: string)
    ensures IconForText(text) == "" || IconForText(text) in ICON_MAP.Values
  {
    var t := IconKey(text);
    if t != [] && t !in ICON_MAP {
      HeuristicIconIsKnown(t);
    }
  }

  /** Each heuristic icon is also the icon of the map entry for its keyword. */
  lemma HeuristicIconIsKnown(t: string)
    ensures HeuristicIcon(t) == "" || HeuristicIcon(t) in ICON_MAP.Values
  {
    KeywordIcons();
  }

  /** The map entries of the seven heuristic keywords. */
  lemma KeywordIcons()
    ensures JUICE_BOX in ICON_MAP.Values && DROPLET in ICON_MAP.Values && MILK_GLASS in ICON_MAP.Values
    ensures TOILET in ICON_MAP.Values && SOS in ICON_MAP.Values && PALETTE in ICON_MAP.Values
    ensures GAME_PAD in ICON_MAP.Values
  {
    assert ICON_MAP["juice"] == JUICE_BOX;
    assert ICON_MAP["water"] == DROPLET;
    assert ICON_MAP["milk"] == MILK_GLASS;
    assert ICON_MAP["toilet"] == TOILET;
    assert ICON_MAP["help"] == SOS;
    assert ICON_MAP["draw"] == PALETTE;
    assert ICON_MAP["game"] == GAME_PAD;
  }

  /** The lookup key is already trimmed and lower-case, so it is its own key. */
  lemma KeyIsFixed(text: string)
    ensures Trimmed(IconKey(text))
    ensures IconKey(IconKey(text)) == IconKey(text)
  {
    var t := Trim(text);
    var l := ToLower(t);
    assert Trimmed(l) by {
      if l != [] {
        assert l[0] == LowerChar(t[0]) && l[|l| - 1] == LowerChar(t[|t| - 1]);
      }
    }
    TrimOfTrimmed(l);
    ToLowerIdempotent(t);
  }

  /** The icon depends only on the trimmed, lower-cased text. */
  lemma IconDependsOnKeyOnly(text: string)
    ensures IconForText(IconKey(text)) == IconForText(text)
  {
    KeyIsFixed(text);
  }

  /** An exact key wins over the heuristics: "orange juice" and "juice" both hit the map first. */
  lemma ExactKeyFirst(text: string)
    requires !Blank(text) && IconKey(text) in ICON_MAP
    ensures IconForText(text) == ICON_MAP[IconKey(text)]
  {
  }

  /** Heuristic order: a label mentioning both juice and water gets the juice icon. */
  lemma JuiceBeforeWater(text: string)
    requires !Blank(text) && IconKey(text) !in ICON_MAP
    requires Includes(IconKey(text), "juice")
    ensures IconForText(text) == JUICE_BOX
  {
  }

  // --- The lookup as written ------------------------------------------

  /** A JavaScript property read: a string, some other (truthy) value, or `undefined`. */
  datatype JsValue = JsString(s: string) | OtherTruthy | Undefined

  /**
   * The lower-case property names an object literal inherits from
   * `Object.prototype`: `constructor` (a function) and `__proto__` (the
   * prototype object itself).
   */
  const INHERITED_KEYS: set<string> := {"constructor", "__proto__"}

  /** `ICON_MAP[t]` on the plain object literal the code builds. */
  function IconLookupAsWritten(t: string): (v: JsValue)
    ensures t in ICON_MAP ==> v == JsString(ICON_MAP[t])
    ensures t !in ICON_MAP && t !in INHERITED_KEYS ==> v == Undefined
  {
    if t in ICON_MAP then JsString(ICON_MAP[t])
    else if t in INHERITED_KEYS then OtherTruthy
    else Undefined
  }

  /** `iconForText` as written: the first test is truthiness of the property read. */
  function IconForTextAsWritten(text: string): (r: JsValue)
    ensures r != Undefined
    ensures Blank(text) ==> r == JsString("")
  {
    AsWrittenForKey(IconKey(text))
  }

  /** The body of `iconForText` as written, once the key is computed. */
  function AsWrittenForKey(t: string): (r: JsValue)
    ensures r != Undefined
  {
    if t == [] then JsString("")
    else
      match IconLookupAsWritten(t)
      case JsString(icon) => JsString(icon)
      case OtherTruthy => OtherTruthy
      case Undefined => JsString(HeuristicIcon(t))
  }

  /** A key that is already trimmed and lower-case is its own lookup key. */
  lemma PlainKey(t: string)
    requires Trimmed(t) && forall i :: 0 <= i < |t| ==> !IsAsciiUpper(t[i])
    ensures IconKey(t) == t
  {
    TrimOfTrimmed(t);
  }

  /** The as-written lookup and the own-key lookup on one inherited name. */
  lemma InheritedName(t: string)
    requires t != [] && t in INHERITED_KEYS && t !in ICON_MAP
    requires Trimmed(t) && forall i :: 0 <= i < |t| ==> !IsAsciiUpper(t[i])
    requires LacksKeywordLetters(t)
    ensures IconForTextAsWritten(t) == OtherTruthy
    ensures IconForText(t) == ""
  {
    PlainKey(t);
    assert IconLookupAsWritten(t) == OtherTruthy;
    assert IconForTextAsWritten(t) == OtherTruthy;
    NoHeuristicFires(t);
  }

  /** A tile labelled "constructor" gets a function, not an icon string; with own keys only it gets "". */
  lemma InheritedKeyCounterexample()
    ensures IconForTextAsWritten("constructor") == OtherTruthy && IconForText("constructor") == ""
    ensures IconForTextAsWritten("__proto__") == OtherTruthy && IconForText("__proto__") == ""
  {
    ConstructorKey();
    ProtoKey();
  }

  lemma ConstructorKey()
    ensures IconForTextAsWritten("constructor") == OtherTruthy && IconForText("constructor") == ""
  {
    var t := "constructor";
    ConstructorNotMapped();
    InheritedName(t);
  }

  lemma ConstructorNotMapped()
    ensures "constructor" !in ICON_MAP && LacksKeywordLetters("constructor")
  {
  }

  lemma ProtoKey()
    ensures IconForTextAsWritten("__proto__") == OtherTruthy && IconForText("__proto__") == ""
  {
    var t := "__proto__";
    ProtoNotMapped();
    InheritedName(t);
  }

  lemma ProtoNotMapped()
    ensures "__proto__" !in ICON_MAP && LacksKeywordLetters("__proto__")
  {
  }

  /** For each heuristic keyword, a letter of it that neither inherited name contains. */
  predicate LacksKeywordLetters(t: string) {
    forall i :: 0 <= i < |t| ==> !KeywordLetter(t[i])
  }

  predicate KeywordLetter(c: char) {
    c == 'j' || c == 'w' || c == 'm' || c == 'l' || c == 'b' || c == 'h' || c == 'd' || c == 'g'
  }

  /** A key missing one letter of every keyword sets off no heuristic. */
  lemma NoHeuristicFires(t: string)
    requires LacksKeywordLetters(t)
    ensures HeuristicIcon(t) == ""
  {
    MissingCharExcludes(t, "juice", 'j');
    MissingCharExcludes(t, "water", 'w');
    MissingCharExcludes(t, "milk", 'm');
    MissingCharExcludes(t, "toilet", 'l');
    MissingCharExcludes(t, "bathroom", 'b');
    MissingCharExcludes(t, "help", 'h');
    MissingCharExcludes(t, "draw", 'd');
    MissingCharExcludes(t, "game", 'g');
  }

  /** Away from the inherited names, the corrected lookup agrees with the code as written. */
  lemma AsWrittenAgreesElsewhere(text: string)
    requires IconKey(text) !in INHERITED_KEYS
    ensures IconForTextAsWritten(text) == JsString(IconForText(text))
  {
  }

  // ---------------------------------------------------------------------
  // splitIconLabel
  // ---------------------------------------------------------------------

  /** A tile's icon and caption. */
  datatype IconLabel = IconLabel(icon: string, text: string)

  /**
   * The emoji-prefix pattern `^\s*(\p{Extended_Pictographic}️?)\s+(.*)$`
   * is an oracle: it either fails or yields the icon group and the rest.
   */
  datatype EmojiMatch = EmojiMatch(icon: string, rest: string)

  /** `splitIconLabel`, for an oracle `emojiPrefix` standing for the pattern match. */
  function SplitIconLabel(labelText: string, emojiPrefix: string -> Option<EmojiMatch>): (r: IconLabel)
    ensures Blank(labelText) ==> r == IconLabel("", "")
    ensures !Blank(labelText) && emojiPrefix(Trim(labelText)).None? ==>
      r.text == Trim(labelText) && r.icon == IconForText(labelText)
    ensures !Blank(labelText) && emojiPrefix(Trim(labelText)).Some? ==>
      r.icon == emojiPrefix(Trim(labelText)).value.icon &&
      r.text == Trim(emojiPrefix(Trim(labelText)).value.rest)
    ensures Trimmed(r.text)
  {
    var raw := Trim(labelText);
    if raw == [] then IconLabel("", "")
    else
      match emojiPrefix(raw)
      case Some(m) => IconLabel(m.icon, Trim(m.rest))
      case None =>
        IconDependsOnKeyOnlyTrim(labelText);
        IconLabel(IconForText(raw), raw)
  }

  /** Trimming first does not change the icon. */
  lemma IconDependsOnKeyOnlyTrim(text: string)
    ensures IconForText(Trim(text)) == IconForText(text)
  {
    TrimIdempotent(text);
  }

  // ---------------------------------------------------------------------
  // Dialogue responses and what of them is shown
  // ---------------------------------------------------------------------

  datatype DialogueReply = DialogueReply(id: string, labelText: string, text: string)
  datatype OptionGroup = OptionGroup(id: string, title: string, items: seq<string>)

  /** A dialogue response; its memory and debug parts are not modelled. */
  datatype DialogueResponse = DialogueResponse(intent: string, topReplies: seq<DialogueReply>, optionGroups: seq<OptionGroup>)

  /** `ai?.topReplies?.slice(0, 3) ?? []`. */
  function VisibleReplies(ai: Option<DialogueResponse>): (r: seq<DialogueReply>)
    ensures |r| <= 3
    ensures ai.None? ==> r == []
    ensures ai.Some? ==> |r| == if |ai.value.topReplies| < 3 then |ai.value.topReplies| else 3
    ensures ai.Some? ==> r == ai.value.topReplies[..|r|]
  {
    match ai
    case None => []
    case Some(res) => if |res.topReplies| < 3 then res.topReplies else res.topReplies[..3]
  }

  /** Reply tiles render only when exactly three replies are visible. */
  predicate ShowsReplyTiles(ai: Option<DialogueResponse>) {
    |VisibleReplies(ai)| == 3
  }

  /** Tiles render exactly when the response holds at least three replies; the fourth and later are never shown. */
  lemma {:induction false} ReplyTilesIff(ai: Option<DialogueResponse>)
    ensures ShowsReplyTiles(ai) <==> ai.Some? && |ai.value.topReplies| >= 3
    ensures ShowsReplyTiles(ai) ==> VisibleReplies(ai) == ai.value.topReplies[..3]
  {
    var r := VisibleReplies(ai);
    if ai.Some? && |ai.value.topReplies| >= 3 {
      assert |r| == 3;
    }
  }

  /** `g.items.slice(0, 8)`. */
  function VisibleItems(g: OptionGroup): (r: seq<string>)
    ensures |r| <= 8 && |r| <= |g.items| && r == g.items[..|r|]
    ensures |g.items| >= 8 ==> |r| == 8
    ensures |g.items| < 8 ==> r == g.items
  {
    if |g.items| < 8 then g.items else g.items[..8]
  }

  function UpperChar(c: char): (r: char)
    ensures 'a' <= c <= 'z' ==> 'A' <= r <= 'Z'
    ensures !('a' <= c <= 'z') ==> r == c
  {
    if 'a' <= c <= 'z' then (c as int - 32) as char else c
  }

  /** An option item's caption: its first character upper-cased, or "Item" for an empty item. */
  function ItemLabel(item: string): (r: string)
    ensures item == "" ==> r == "Item"
    ensures item != "" ==> |r| == |item| && r[1..] == item[1..] && r[0] == UpperChar(item[0])
  {
    if item == "" then "Item" else [UpperChar(item[0])] + item[1..]
  }

  // ---------------------------------------------------------------------
  // The dialogue request guard and the page state
  // ---------------------------------------------------------------------

  /** The guard of the request effect: a name, a non-blank question, not listening, not already requested. */
  function ShouldRequest(hasName: bool, questionText: string, listening: bool, lastRequested: string): (b: bool)
    ensures b ==> hasName && !listening && !Blank(questionText)
  {
    && hasName
    && Trim(questionText) != []
    && !listening
    && Trim(questionText) != lastRequested
  }

  /** A dialogue request as sent: the user's name, the trimmed question and the location. */
  datatype DialogueRequest = DialogueRequest(userName: string, questionText: string, location: LocationKey)

  class ComposeView {
    /** The `aac_name` and `aac_location` entries of local storage. */
    var storedName: Option<string>
    var storedLocation: Option<string>
    var name: string
    var hasName: bool
    var nameInput: string
    var location: LocationKey
    var questionText: string
    var showMore: bool
    var ai: Option<DialogueResponse>
    var aiLoading: bool
    var aiError: Option<string>
    /** `lastRequestedQuestionRef`. */
    var lastRequested: string
    /** The request a debounce timer is waiting to send, if a timer is set. */
    var pending: Option<DialogueRequest>
    /** Every dialogue request sent, oldest first. */
    var sent: seq<DialogueRequest>

    /** Every scheduled request passed the guard when it was scheduled. */
    ghost predicate Valid()
      reads this
    {
      pending.Some? ==> pending.value.questionText != [] && pending.value.questionText != lastRequested
    }

    constructor (stored: Option<string>, storedLoc: Option<string>)
      ensures Valid()
      ensures storedName == stored && name == stored.GetOr("") && hasName == (stored.Some? && stored.value != "")
      ensures location == StoredLocation(storedLoc) && storedLocation == storedLoc
      ensures questionText == "" && nameInput == "" && !showMore
      ensures ai == None && !aiLoading && aiError == None && lastRequested == ""
      ensures pending == None && sent == []
    {
      storedName := stored;
      storedLocation := storedLoc;
      name := stored.GetOr("");
      hasName := stored.Some? && stored.value != "";
      nameInput := "";
      location := StoredLocation(storedLoc);
      questionText := "";
      showMore := false;
      ai := None;
      aiLoading := false;
      aiError := None;
      lastRequested := "";
      pending := None;
      sent := [];
    }

    function Prompt(): string
      reads this
    {
      ConversationPage.Prompt(name, questionText)
    }

    /**
     * The request effect, run whenever the question, name, listening state or
     * location changes: the previous timer is cleared, and a new one is set
     * exactly when the guard holds.
     */
    method RunRequestEffect(listening: bool)
      requires Valid()
      modifies this`pending
      ensures Valid()
      ensures pending.Some? <==> ShouldRequest(hasName, questionText, listening, lastRequested)
      ensures pending.Some? ==> pending.value == DialogueRequest(name, Trim(questionText), location)
    {
      pending := None;
      if !hasName {
        return;
      }
      var q := Trim(questionText);
      if q == [] {
        return;
      }
      if listening {
        return;
      }
      if q == lastRequested {
        return;
      }
      pending := Some(DialogueRequest(name, q, location));
    }

    /** The debounce timer fires: the request is sent and remembered as the last one requested. */
    method DebounceElapsed()
      requires Valid() && pending.Some?
      modifies this`pending, this`lastRequested, this`aiLoading, this`aiError, this`sent
      ensures Valid()
      ensures lastRequested == old(pending).value.questionText
      ensures sent == old(sent) + [old(pending).value]
      ensures aiLoading && aiError == None && pending == None
      ensures old(lastRequested) != lastRequested
    {
      var req := pending.value;
      lastRequested := req.questionText;
      aiLoading := true;
      aiError := None;
      sent := sent + [req];
      pending := None;
    }

    /** The dialogue request settles: the response, or the error message, and loading ends. */
    method RepliesSettled(res: Result<DialogueResponse, Thrown>)
      requires Valid()
      modifies this`ai, this`aiError, this`aiLoading
      ensures Valid()
      ensures !aiLoading
      ensures res.Success? ==> ai == Some(res.value) && aiError == old(aiError)
      ensures res.Failure? ==> ai == old(ai) && aiError == Some(MessageOr(res.error, "Failed to get AI replies"))
    {
      match res {
        case Success(r) => ai := Some(r);
        case Failure(e) => aiError := Some(MessageOr(e, "Failed to get AI replies"));
      }
      aiLoading := false;
    }

    /** `completeOnboarding`, up to the greeting it speaks. */
    method CompleteOnboarding()
      requires Valid()
      modifies this`storedName, this`name, this`hasName, this`nameInput
      ensures Valid()
      ensures Blank(old(nameInput)) ==> name == old(name) && hasName == old(hasName) && nameInput == old(nameInput) && storedName == old(storedName)
      ensures !Blank(old(nameInput)) ==>
        storedName == Some(Trim(old(nameInput))) && name == Trim(old(nameInput)) && hasName && nameInput == ""
    {
      var trimmed := Trim(nameInput);
      if trimmed == [] {
        return;
      }
      storedName := Some(trimmed);
      name := trimmed;
      hasName := true;
      nameInput := "";
    }

    /** The location buttons, with the effect that persists the choice. */
    method SetLocation(l: LocationKey)
      requires Valid()
      modifies this`location, this`storedLocation
      ensures Valid()
      ensures location == l && storedLocation == Some(LocationName(l))
      ensures StoredLocation(storedLocation) == l
    {
      location := l;
      storedLocation := Some(LocationName(l));
      StoredLocationRoundTrip(l);
    }

    /** `resetName`: back to onboarding with no question, no replies and no memory of the last request. */
    method ResetName()
      requires Valid()
      modifies this`storedName, this`hasName, this`name, this`showMore, this`questionText,
               this`ai, this`aiError, this`lastRequested, this`pending
      ensures Valid()
      ensures storedName == None && !hasName && name == "" && !showMore && questionText == ""
      ensures ai == None && aiError == None && lastRequested == ""
      ensures pending == old(pending)
    {
      storedName := None;
      hasName := false;
      name := "";
      showMore := false;
      questionText := "";
      ai := None;
      aiError := None;
      lastRequested := "";
    }

    /** `clearHeardQuestion`: no question, no replies, no memory of the last request, options closed. */
    method ClearHeardQuestion()
      requires Valid()
      modifies this`questionText, this`ai, this`aiError, this`lastRequested, this`showMore, this`pending
      ensures Valid()
      ensures questionText == "" && ai == None && aiError == None && lastRequested == "" && !showMore
      ensures pending == old(pending)
      ensures Prompt() == name + ", would you like a drink?"
    {
      questionText := "";
      ai := None;
      aiError := None;
      lastRequested := "";
      showMore := false;
    }

    /** The effect on the recogniser's final text: a non-empty final text becomes the question. */
    method OnFinalText(finalText: string)
      requires Valid()
      modifies this`questionText
      ensures Valid()
      ensures questionText == (if finalText != "" then finalText else old(questionText))
    {
      if finalText != "" {
        questionText := finalText;
      }
    }
  }

  /** Once a question has been sent, re-running the effect on the same question schedules nothing. */
  lemma NoRepeatRequest(hasName: bool, questionText: string, listening: bool)
    ensures !ShouldRequest(hasName, questionText, listening, Trim(questionText))
  {
  }

  /** The guard holds exactly when none of the four early returns is taken. */
  lemma GuardEarlyReturns(hasName: bool, questionText: string, listening: bool, lastRequested: string)
    ensures !hasName ==> !ShouldRequest(hasName, questionText, listening, lastRequested)
    ensures Blank(questionText) ==> !ShouldRequest(hasName, questionText, listening, lastRequested)
    ensures listening ==> !ShouldRequest(hasName, questionText, listening, lastRequested)
    ensures Trim(questionText) == lastRequested ==> !ShouldRequest(hasName, questionText, listening, lastRequested)
    ensures hasName && !Blank(questionText) && !listening && Trim(questionText) != lastRequested ==>
      ShouldRequest(hasName, questionText, listening, lastRequested)
  {
  }
}
