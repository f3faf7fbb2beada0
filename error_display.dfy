/**
  The error panel: it classifies the message by the substrings of its
  lower-cased text and picks the icon, the title, the hints and the retry
  button from that classification.
 */
module ErrorDisplay {
  import opened Text
  import opened UseWeather

  /** `message.toLowerCase().includes('not found')`. */
  predicate IsCityNotFound(message: string) {
    Contains(ToLower(message), "not found")
  }

  /** `message.toLowerCase().includes('api key')`. */
  predicate IsAPIKeyError(message: string) {
    Contains(ToLower(message), "api key")
  }

  /** The three looks of the panel. */
  datatype ErrorKind = CityNotFound | ApiKeyIssue | Generic

  /** Not-found wins over API-key, which wins over the generic case. */
  function Kind(message: string): ErrorKind {
    if IsCityNotFound(message) then CityNotFound
    else if IsAPIKeyError(message) then ApiKeyIssue
    else Generic
  }

  function Icon(kind: ErrorKind): string {
    match kind
    case CityNotFound => "\U{1F5FA}\U{FE0F}"
    case ApiKeyIssue => "\U{1F511}"
    case Generic => "\U{1F614}"
  }

  function Title(kind: ErrorKind): string {
    match kind
    case CityNotFound => "City Not Found!"
    case ApiKeyIssue => "API Key Issue"
    case Generic => "Oops! Something went wrong"
  }

  /** The two hints the panel can show. */
  datatype Hint = CheckSpelling | RestartServer

  /** The hints, each shown on its own condition, in markup order. */
  function Hints(message: string): seq<Hint> {
    (if IsCityNotFound(message) then [CheckSpelling] else [])
    + (if IsAPIKeyError(message) then [RestartServer] else [])
  }

  /** What the panel shows. */
  datatype ErrorView = ErrorView(icon: string, title: string, message: string, hints: seq<Hint>, retryButton: bool)

  /** The panel for `message`; `hasRetry` says whether an `onRetry` callback was passed. */
  function Render(message: string, hasRetry: bool): ErrorView {
    var kind := Kind(message);
    ErrorView(Icon(kind), Title(kind), message, Hints(message), hasRetry)
  }

  /** The icon and title follow the precedence not-found, then API-key, then generic. */
  lemma RenderPrecedence(message: string, hasRetry: bool)
    ensures var v := Render(message, hasRetry);
      && (IsCityNotFound(message) ==> v.icon == "\U{1F5FA}\U{FE0F}" && v.title == "City Not Found!")
      && (!IsCityNotFound(message) && IsAPIKeyError(message) ==> v.icon == "\U{1F511}" && v.title == "API Key Issue")
      && (!IsCityNotFound(message) && !IsAPIKeyError(message) ==>
            v.icon == "\U{1F614}" && v.title == "Oops! Something went wrong")
      && v.message == message
  {
  }

  /** The two hints are independent: each appears exactly when its substring does, both when both do. */
  lemma HintsIndependent(message: string)
    ensures var h := Hints(message);
      && |h| == (if IsCityNotFound(message) then 1 else 0) + (if IsAPIKeyError(message) then 1 else 0)
      && (CheckSpelling in h <==> IsCityNotFound(message))
      && (RestartServer in h <==> IsAPIKeyError(message))
  {
  }

  /** The retry button is there exactly when a callback was passed. */
  lemma RetryButtonIffCallback(message: string, hasRetry: bool)
    ensures Render(message, hasRetry).retryButton <==> hasRetry
  {
  }

  /** Classification ignores letter case. */
  lemma ClassificationIgnoresCase(message: string)
    ensures IsCityNotFound(ToUpper(message)) == IsCityNotFound(message)
    ensures IsAPIKeyError(ToUpper(message)) == IsAPIKeyError(message)
    ensures Kind(ToUpper(message)) == Kind(message)
  {
    LowerOfUpper(message);
  }

  /** `p` occurs in the lower-cased `a + p + b` when `p` has no upper-case letter. */
  lemma LowerContainsMiddle(a: string, p: string, b: string)
    requires IsLowerCase(p)
    ensures Contains(ToLower(a + p + b), p)
  {
    ToLowerFacts(a, p);
    ToLowerFacts(a + p, b);
    ToLowerFacts(p, []);
    ContainsInMiddle(ToLower(a), p, ToLower(b));
  }

  /** The 404 message shows the not-found panel whatever the city. */
  lemma NotFoundMessageClassified(city: string)
    ensures IsCityNotFound(NotFoundMessage(city))
    ensures Kind(NotFoundMessage(city)) == CityNotFound
  {
    LowerContainsMiddle("City \"" + city + "\" ", "not found", ". Please check the spelling and try again! \U{1F5FA}\U{FE0F}");
  }

  /** Lower-casing turns the words `API key` into the phrase the panel searches for. */
  lemma LowerApiKey(a: string, b: string)
    ensures Contains(ToLower(a + "API key" + b), "api key")
  {
    ToLowerFacts(a, "API key");
    ToLowerFacts(a + "API key", b);
    assert ToLower("API key") == "api key";
    ContainsInMiddle(ToLower(a), "api key", ToLower(b));
  }

  /** Lower-casing two strings that each lack `c` gives a string that lacks `c`. */
  lemma LowerLacksConcat(a: string, b: string, c: char)
    requires Lacks(ToLower(a), c) && Lacks(ToLower(b), c)
    ensures Lacks(ToLower(a + b), c)
  {
    ToLowerFacts(a, b);
    LacksConcat(ToLower(a), ToLower(b), c);
  }

  /** The same for a pair of adjacent characters, which must not straddle the join either. */
  lemma LowerLacksPairConcat(a: string, b: string, x: char, y: char)
    requires LacksPair(ToLower(a), x, y) && LacksPair(ToLower(b), x, y)
    requires a != [] && b != [] && !(LowerChar(a[|a| - 1]) == x && LowerChar(b[0]) == y)
    ensures LacksPair(ToLower(a + b), x, y)
  {
    ToLowerFacts(a, b);
    LacksPairConcat(ToLower(a), ToLower(b), x, y);
  }

  lemma InvalidKeyPieces()
    ensures Lacks(ToLower("Invalid "), 't') && Lacks(ToLower("API key"), 't')
    ensures Lacks(ToLower(". Please check "), 't') && Lacks(ToLower("your .env file! \U{1F511}"), 't')
  {
  }

  /** The 401 message shows the API-key panel with its hint only. */
  lemma InvalidKeyMessageClassified()
    ensures Kind(InvalidKeyMessage) == ApiKeyIssue
    ensures Hints(InvalidKeyMessage) == [RestartServer]
  {
    var a, b, c1, c2 := "Invalid ", "API key", ". Please check ", "your .env file! \U{1F511}";
    LowerApiKey(a, c1 + c2);
    assert InvalidKeyMessage == a + b + (c1 + c2) == a + b + c1 + c2;
    InvalidKeyPieces();
    LowerLacksConcat(a, b, 't');
    LowerLacksConcat(a + b, c1, 't');
    LowerLacksConcat(a + b + c1, c2, 't');
    assert "not found"[2] == 't';
    LacksNotContains(ToLower(InvalidKeyMessage), "not found", 2);
  }

  lemma ConfigHeadPieces()
    ensures LacksPair(ToLower("\U{26A0}\U{FE0F} "), 'u', 'n') && LacksPair(ToLower("API key"), 'u', 'n')
    ensures LacksPair(ToLower(" not configured! "), 'u', 'n')
  {
  }

  lemma ConfigTailPieces()
    ensures LacksPair(ToLower("Please add your "), 'u', 'n') && LacksPair(ToLower("OpenWeatherMap "), 'u', 'n')
    ensures LacksPair(ToLower(" to the .env file."), 'u', 'n')
  {
  }

  /** The missing-key message shows the API-key panel with its hint only. */
  lemma ConfigMessageClassified()
    ensures Kind(ConfigMessage) == ApiKeyIssue
    ensures Hints(ConfigMessage) == [RestartServer]
  {
    var a, b, c1, c2, c3, c4 := "\U{26A0}\U{FE0F} ", "API key", " not configured! ", "Please add your ", "OpenWeatherMap ",
      " to the .env file.";
    var m := ConfigMessage;
    LowerApiKey(a, c1 + c2 + c3 + b + c4);
    assert m == a + b + (c1 + c2 + c3 + b + c4);
    ConfigHeadPieces();
    ConfigTailPieces();
    LowerLacksPairConcat(a, b, 'u', 'n');
    LowerLacksPairConcat(a + b, c1, 'u', 'n');
    LowerLacksPairConcat(a + b + c1, c2, 'u', 'n');
    LowerLacksPairConcat(a + b + c1 + c2, c3, 'u', 'n');
    LowerLacksPairConcat(a + b + c1 + c2 + c3, b, 'u', 'n');
    LowerLacksPairConcat(a + b + c1 + c2 + c3 + b, c4, 'u', 'n');
    assert m == a + b + c1 + c2 + c3 + b + c4;
    assert "not found"[6] == 'u' && "not found"[7] == 'n';
    LacksPairNotContains(ToLower(m), "not found", 6);
  }

  lemma StatusPiecesLackU()
    ensures Lacks(ToLower("Failed to fetch "), 'u') && Lacks(ToLower("weather data ("), 'u')
    ensures Lacks(ToLower("). Please try "), 'u') && Lacks(ToLower("again! \U{1F310}"), 'u')
  {
  }

  lemma StatusPiecesLackK()
    ensures Lacks(ToLower("Failed to fetch "), 'k') && Lacks(ToLower("weather data ("), 'k')
    ensures Lacks(ToLower("). Please try "), 'k') && Lacks(ToLower("again! \U{1F310}"), 'k')
  {
  }

  /** The decimal digits of a number hold no letter, lower-cased or not. */
  lemma DigitsLackLetters(status: nat, c: char)
    requires 'a' <= c <= 'z'
    ensures Lacks(ToLower(DecimalString(status)), c)
  {
  }

  /** The message for any other failing status shows the generic panel with no hint. */
  lemma StatusMessageClassified(status: nat)
    ensures Kind(StatusMessage(status)) == Generic
    ensures Hints(StatusMessage(status)) == []
  {
    var a, b, d, c1, c2 := "Failed to fetch ", "weather data (", DecimalString(status), "). Please try ", "again! \U{1F310}";
    var m := StatusMessage(status);
    StatusPiecesLackU();
    StatusPiecesLackK();
    DigitsLackLetters(status, 'u');
    DigitsLackLetters(status, 'k');
    LowerLacksConcat(a, b, 'u');
    LowerLacksConcat(a + b, d, 'u');
    LowerLacksConcat(a + b + d, c1, 'u');
    LowerLacksConcat(a + b + d + c1, c2, 'u');
    LowerLacksConcat(a, b, 'k');
    LowerLacksConcat(a + b, d, 'k');
    LowerLacksConcat(a + b + d, c1, 'k');
    LowerLacksConcat(a + b + d + c1, c2, 'k');
    assert m == a + b + d + c1 + c2;
    assert "not found"[6] == 'u';
    LacksNotContains(ToLower(m), "not found", 6);
    assert "api key"[4] == 'k';
    LacksNotContains(ToLower(m), "api key", 4);
  }

  lemma NoConditionPairPieces()
    ensures LacksPair(ToLower("Cannot read "), ' ', 'f') && LacksPair(ToLower("properties of "), ' ', 'f')
    ensures LacksPair(ToLower("undefined "), ' ', 'f')
  {
  }

  lemma NoConditionTailPair()
    ensures LacksPair(ToLower("(reading 'description')"), ' ', 'f')
  {
  }

  lemma NoConditionPieces()
    ensures Lacks(ToLower("Cannot read "), 'k') && Lacks(ToLower("properties of "), 'k')
    ensures Lacks(ToLower("undefined "), 'k') && Lacks(ToLower("(reading 'description')"), 'k')
  {
  }

  /** The message of the error raised by a reply without conditions shows the generic panel with no hint. */
  lemma NoConditionMessageClassified()
    ensures Kind(NoConditionMessage) == Generic
    ensures Hints(NoConditionMessage) == []
  {
    var a, b, c, d := "Cannot read ", "properties of ", "undefined ", "(reading 'description')";
    var m := NoConditionMessage;
    NoConditionPairPieces();
    NoConditionTailPair();
    NoConditionPieces();
    LowerLacksPairConcat(a, b, ' ', 'f');
    LowerLacksPairConcat(a + b, c, ' ', 'f');
    LowerLacksPairConcat(a + b + c, d, ' ', 'f');
    LowerLacksConcat(a, b, 'k');
    LowerLacksConcat(a + b, c, 'k');
    LowerLacksConcat(a + b + c, d, 'k');
    assert "not found"[3] == ' ' && "not found"[4] == 'f';
    LacksPairNotContains(ToLower(m), "not found", 3);
    assert "api key"[4] == 'k';
    LacksNotContains(ToLower(m), "api key", 4);
  }
}
