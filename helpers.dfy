/**
 * The formatting and validation utilities of src/utils/helpers.js. Clock readings enter as
 * integers: a time difference `now - then` in milliseconds, or the hour of the day.
 */
module Helpers {
  import opened JsStrings

  // ---------------------------------------------------------------------------------------
  // formatRelativeTime

  /** The bucket a relative-time formatter places a time difference in. */
  datatype Elapsed =
    | JustNow
    | MinutesAgo(n: nat)
    | HoursAgo(n: nat)
    | DaysAgo(n: nat)
    | WeeksAgo(n: nat)
    | CalendarDate

  const MinuteMs := 60_000
  const HourMs := 3_600_000
  const DayMs := 86_400_000
  const WeekMs := 604_800_000

  /**
   * The chain of `Math.floor` divisions of formatRelativeTime: seconds, then minutes, hours,
   * days and weeks, each tested against its threshold in turn.
   */
  function RelativeTime(diffMs: int): (r: Elapsed)
    ensures r == JustNow <==> diffMs < MinuteMs
    ensures r.MinutesAgo? <==> MinuteMs <= diffMs < HourMs
    ensures r.HoursAgo? <==> HourMs <= diffMs < DayMs
    ensures r.DaysAgo? <==> DayMs <= diffMs < WeekMs
    ensures r.WeeksAgo? <==> WeekMs <= diffMs < 4 * WeekMs
    ensures r == CalendarDate <==> 4 * WeekMs <= diffMs
    ensures r.MinutesAgo? ==> r.n == diffMs / MinuteMs
    ensures r.HoursAgo? ==> r.n == diffMs / HourMs
    ensures r.DaysAgo? ==> r.n == diffMs / DayMs
    ensures r.WeeksAgo? ==> r.n == diffMs / WeekMs
  {
    var seconds := diffMs / 1000;
    if seconds < 60 then JustNow
    else
      var minutes := seconds / 60;
      if minutes < 60 then MinutesAgo(minutes)
      else
        var hours := minutes / 60;
        if hours < 24 then HoursAgo(hours)
        else
          var days := hours / 24;
          if days < 7 then DaysAgo(days)
          else
            var weeks := days / 7;
            if weeks < 4 then WeeksAgo(weeks) else CalendarDate
  }

  /** Every count shown is at least 1 and stays below the next unit's threshold. */
  lemma RelativeTimeBounds(diffMs: int)
    ensures var r := RelativeTime(diffMs);
      && (r.MinutesAgo? ==> 1 <= r.n < 60)
      && (r.HoursAgo? ==> 1 <= r.n < 24)
      && (r.DaysAgo? ==> 1 <= r.n < 7)
      && (r.WeeksAgo? ==> 1 <= r.n < 4)
  {
  }

  /** A later reading of the clock never moves a timestamp to a finer bucket. */
  function Coarseness(e: Elapsed): nat {
    match e
    case JustNow => 0
    case MinutesAgo(_) => 1
    case HoursAgo(_) => 2
    case DaysAgo(_) => 3
    case WeeksAgo(_) => 4
    case CalendarDate => 5
  }

  lemma RelativeTimeMonotone(d1: int, d2: int)
    requires d1 <= d2
    ensures Coarseness(RelativeTime(d1)) <= Coarseness(RelativeTime(d2))
    ensures RelativeTime(d1).MinutesAgo? && RelativeTime(d2).MinutesAgo? ==> RelativeTime(d1).n <= RelativeTime(d2).n
  {
  }

  /** formatRelativeTime: the bucket as text; `localeDate` is `toLocaleDateString()` of the date. */
  function FormatRelativeTime(diffMs: int, localeDate: string): (s: string)
    ensures diffMs < MinuteMs ==> s == "just now"
    ensures 4 * WeekMs <= diffMs ==> s == localeDate
    ensures MinuteMs <= diffMs < HourMs ==> s == NatToString(diffMs / MinuteMs) + "m ago"
    ensures HourMs <= diffMs < DayMs ==> s == NatToString(diffMs / HourMs) + "h ago"
    ensures DayMs <= diffMs < WeekMs ==> s == NatToString(diffMs / DayMs) + "d ago"
    ensures WeekMs <= diffMs < 4 * WeekMs ==> s == NatToString(diffMs / WeekMs) + "w ago"
  {
    match RelativeTime(diffMs)
    case JustNow => "just now"
    case MinutesAgo(n) => NatToString(n) + "m ago"
    case HoursAgo(n) => NatToString(n) + "h ago"
    case DaysAgo(n) => NatToString(n) + "d ago"
    case WeeksAgo(n) => NatToString(n) + "w ago"
    case CalendarDate => localeDate
  }

  // ---------------------------------------------------------------------------------------
  // isValidEmail, isValidUsername

  /** A character of the class `[^\s@]`. */
  predicate IsEmailChar(c: char) {
    !IsWhitespace(c) && c != '@'
  }

  predicate AllEmailChars(s: string) {
    forall i :: 0 <= i < |s| ==> IsEmailChar(s[i])
  }

  /**
   * `/^[^\s@]+@[^\s@]+\.[^\s@]+$/` read as a shape: `s` is L '@' D1 '.' D2 with the '@' at
   * index `at` and the '.' at index `dot`, all three parts non-empty, and no character other
   * than that '@' is whitespace or '@' (so D1 and D2 may themselves contain dots).
   */
  ghost predicate EmailShape(s: string, at: nat, dot: nat) {
    && 0 < at && at + 1 < dot && dot + 1 < |s|
    && s[at] == '@' && s[dot] == '.'
    && forall k :: 0 <= k < |s| && k != at ==> IsEmailChar(s[k])
  }

  /** The regex test as a matcher: one '@', not first, and a '.' inside the part after it. */
  function IsValidEmail(email: string): bool {
    var at := IndexOf(email, '@');
    if at <= 0 then false
    else
      var domain := email[at + 1..];
      && AllEmailChars(email[..at])
      && AllEmailChars(domain)
      && |domain| >= 1
      && LastIndexOf(domain[..|domain| - 1], '.') >= 1
  }

  /** The matcher accepts exactly the strings of the regex's shape. */
  lemma IsValidEmailIff(email: string)
    ensures IsValidEmail(email) <==> exists at: nat, dot: nat :: EmailShape(email, at, dot)
  {
    var at := IndexOf(email, '@');
    if IsValidEmail(email) {
      var domain := email[at + 1..];
      var j := LastIndexOf(domain[..|domain| - 1], '.');
      var dot := at + 1 + j;
      assert email[dot] == domain[j];
      forall k | 0 <= k < |email| && k != at ensures IsEmailChar(email[k]) {
        if k < at {
          assert email[k] == email[..at][k];
        } else {
          assert email[k] == domain[k - at - 1];
        }
      }
      assert EmailShape(email, at, dot);
    }
    if exists a: nat, d: nat :: EmailShape(email, a, d) {
      var a: nat, d: nat :| EmailShape(email, a, d);
      assert email[a] == '@';
      assert at == a;
      var domain := email[at + 1..];
      assert domain[d - a - 1] == '.';
      assert domain[..|domain| - 1][d - a - 1] == '.';
      assert AllEmailChars(email[..at]);
      assert AllEmailChars(domain);
    }
  }

  /** A valid email holds exactly one '@' (the first character is not it) and no whitespace. */
  lemma ValidEmailOneAt(email: string)
    requires IsValidEmail(email)
    ensures IndexOf(email, '@') >= 1
    ensures forall k :: 0 <= k < |email| && email[k] == '@' ==> k == IndexOf(email, '@')
    ensures forall k :: 0 <= k < |email| ==> !IsWhitespace(email[k])
  {
    IsValidEmailIff(email);
    var at: nat, dot: nat :| EmailShape(email, at, dot);
    assert email[at] == '@';
  }

  /** A character of the class `[a-zA-Z0-9_]` (also `\w`). */
  predicate IsWordChar(c: char) {
    ('a' <= c <= 'z') || ('A' <= c <= 'Z') || ('0' <= c <= '9') || c == '_'
  }

  /** `/^[a-zA-Z0-9_]*$/`, as a scan from the left. */
  function AllWordChars(s: string): (r: bool)
    ensures r <==> forall i :: 0 <= i < |s| ==> IsWordChar(s[i])
  {
    if s == [] then true else IsWordChar(s[0]) && AllWordChars(s[1..])
  }

  /** isValidUsername: the regex `+` demands one character, the length test 3 to 20 of them. */
  function IsValidUsername(username: string): (r: bool)
    ensures r <==> 3 <= |username| <= 20 && forall i :: 0 <= i < |username| ==> IsWordChar(username[i])
  {
    (username != [] && AllWordChars(username)) && |username| >= 3 && |username| <= 20
  }

  // ---------------------------------------------------------------------------------------
  // truncateText

  /** truncateText: short text unchanged; longer text cut to `maxLength` (clamped at 0) plus "...". */
  function TruncateText(text: string, maxLength: int): (r: string)
    ensures |text| <= maxLength ==> r == text
    ensures |text| > maxLength ==>
      && |r| == (if maxLength < 0 then 0 else maxLength) + 3
      && r[|r| - 3..] == "..."
      && r[..|r| - 3] <= text
  {
    if |text| <= maxLength then text else Prefix(text, maxLength) + "..."
  }

  /** Truncating again to the same length changes a truncated text no further than a 3-character tail. */
  lemma TruncateKeepsHead(text: string, maxLength: nat)
    requires |text| > maxLength
    ensures TruncateText(TruncateText(text, maxLength), maxLength)[..maxLength] == text[..maxLength]
  {
  }

  // ---------------------------------------------------------------------------------------
  // getFileExtension, isImageFile, isAudioFile

  /**
   * `filename.slice((filename.lastIndexOf('.') - 1 >>> 0) + 2)`. For no dot (-1) or a dot at
   * index 0 the unsigned shift wraps to 2^32 - 2 or 2^32 - 1, a start past the end of any
   * name shorter than 2^32 characters.
   */
  function GetFileExtension(filename: string): (ext: string)
    ensures |ext| <= |filename|
    ensures |filename| < 0x1_0000_0000 ==>
      && '.' !in ext
      && ext == filename[|filename| - |ext|..]
      && (ext != [] ==> |filename| - |ext| >= 2 && filename[|filename| - |ext| - 1] == '.')
    ensures |filename| < 0x1_0000_0000 ==>
      (ext == [] <==> ('.' !in filename || LastIndexOf(filename, '.') == 0 || filename[|filename| - 1] == '.'))
  {
    var i := LastIndexOf(filename, '.');
    assert '.' in filename <==> i >= 0 by {
      if '.' in filename {
        var k :| 0 <= k < |filename| && filename[k] == '.';
      }
    }
    Slice(filename, ToUint32(i - 1) + 2)
  }

  /** A name made of a non-empty base, a dot and a dot-free tail has that tail as its extension. */
  lemma ExtensionOfJoined(base: string, ext: string)
    requires base != [] && '.' !in ext
    requires |base| + 1 + |ext| < 0x1_0000_0000
    ensures GetFileExtension(base + "." + ext) == ext
  {
    var name := base + "." + ext;
    assert LastIndexOf(name, '.') == |base| by {
      var i := LastIndexOf(name, '.');
      assert name[|base|] == '.';
      assert forall k :: |base| < k < |name| ==> name[k] == ext[k - |base| - 1];
    }
    assert name[|base| + 1..] == ext;
  }

  const ImageTypes: seq<string> := ["jpg", "jpeg", "png", "gif", "webp", "svg"]
  const AudioTypes: seq<string> := ["mp3", "wav", "ogg", "m4a", "aac"]

  function IsImageFile(name: string): bool {
    ToLower(GetFileExtension(name)) in ImageTypes
  }

  function IsAudioFile(name: string): bool {
    ToLower(GetFileExtension(name)) in AudioTypes
  }

  /** `base.EXT` is an image exactly when the lower-cased EXT is one of the six image types. */
  lemma ImageFileIff(base: string, ext: string)
    requires base != [] && '.' !in ext
    requires |base| + 1 + |ext| < 0x1_0000_0000
    ensures IsImageFile(base + "." + ext) <==> ToLower(ext) in ImageTypes
    ensures IsAudioFile(base + "." + ext) <==> ToLower(ext) in AudioTypes
  {
    ExtensionOfJoined(base, ext);
  }

  /** No name passes both tests. */
  lemma ImageAudioExclusive(name: string)
    ensures !(IsImageFile(name) && IsAudioFile(name))
  {
    TypesDisjoint(ToLower(GetFileExtension(name)));
  }

  /** A name without a dot, or whose only dot is its first character, passes neither test. */
  lemma NoExtensionNoType(name: string)
    requires |name| < 0x1_0000_0000
    requires '.' !in name || LastIndexOf(name, '.') == 0
    ensures !IsImageFile(name) && !IsAudioFile(name)
  {
    assert GetFileExtension(name) == [];
    EmptyExtensionNoType(name);
  }

  lemma EmptyExtensionNoType(name: string)
    requires GetFileExtension(name) == []
    ensures !IsImageFile(name) && !IsAudioFile(name)
  {
    assert ToLower(GetFileExtension(name)) == [];
  }

  lemma TypesDisjoint(t: string)
    ensures !(t in ImageTypes && t in AudioTypes)
  {
    if t in ImageTypes {
      assert t == "jpg" || t == "jpeg" || t == "png" || t == "gif" || t == "webp" || t == "svg";
      assert t[0] in "jpgwsv";
    }
  }

  // ---------------------------------------------------------------------------------------
  // extractHashtags, extractMentions, formatTextWithLinks

  /** The end of the run of word characters that starts at `i`. */
  function WordRunEnd(s: string, i: nat): (e: nat)
    requires i <= |s|
    ensures i <= e <= |s|
    decreases |s| - i
  {
    if i < |s| && IsWordChar(s[i]) then WordRunEnd(s, i + 1) else i
  }

  /** The run is made of word characters and stops at the end of the text or at another character. */
  lemma {:induction false} WordRunFacts(s: string, i: nat)
    requires i <= |s|
    ensures var e := WordRunEnd(s, i);
      && (forall k :: i <= k < e ==> IsWordChar(s[k]))
      && (e == |s| || !IsWordChar(s[e]))
    decreases |s| - i
  {
    if i < |s| && IsWordChar(s[i]) {
      WordRunFacts(s, i + 1);
    }
  }

  /** `/#[a-zA-Z0-9_]+/` (with `sigil` for '#') can start matching at index `p`. */
  predicate TagAt(s: string, sigil: char, p: nat) {
    p + 1 < |s| && s[p] == sigil && IsWordChar(s[p + 1])
  }

  /** The half-open index range `[start, end)` of one match. */
  datatype Span = Span(start: nat, end: nat)

  /**
   * The matches a global regex scan finds from index `i`: at a tag start it takes the longest
   * run of word characters and resumes after it; anywhere else it moves on by one.
   */
  function TagSpans(s: string, sigil: char, i: nat): seq<Span>
    requires i <= |s|
    decreases |s| - i
  {
    if i == |s| then []
    else if TagAt(s, sigil, i) then
      var e := WordRunEnd(s, i + 1);
      [Span(i, e)] + TagSpans(s, sigil, e)
    else TagSpans(s, sigil, i + 1)
  }

  /** One match found by a scan from `lo`: a tag start, followed by its whole run of word characters. */
  predicate SpanOk(s: string, sigil: char, lo: nat, sp: Span) {
    && lo <= sp.start
    && TagAt(s, sigil, sp.start)
    && sp.end == WordRunEnd(s, sp.start + 1)
    && sp.start < sp.end <= |s|
    && forall j :: sp.start < j < sp.end ==> IsWordChar(s[j])
  }

  /** Matches found by a scan from `lo`, in order and without overlap. */
  predicate SpansOk(s: string, sigil: char, lo: nat, spans: seq<Span>) {
    && (forall k :: 0 <= k < |spans| ==> SpanOk(s, sigil, lo, spans[k]))
    && (forall k :: 0 <= k < |spans| - 1 ==> spans[k].end <= spans[k + 1].start)
  }

  /**
   * Every match starts at a tag at or after `i`, runs to the end of the word after the sigil
   * and holds only word characters after it; the matches do not overlap and come in order.
   */
  lemma {:induction false} TagSpansFacts(s: string, sigil: char, i: nat)
    requires i <= |s|
    ensures SpansOk(s, sigil, i, TagSpans(s, sigil, i))
    decreases |s| - i
  {
    if i < |s| {
      if TagAt(s, sigil, i) {
        var e := WordRunEnd(s, i + 1);
        WordRunFacts(s, i + 1);
        TagSpansFacts(s, sigil, e);
        var rest := TagSpans(s, sigil, e);
        var spans := [Span(i, e)] + rest;
        assert spans == TagSpans(s, sigil, i);
        assert SpanOk(s, sigil, i, spans[0]);
        forall k | 1 <= k < |spans|
          ensures SpanOk(s, sigil, i, spans[k])
        {
          assert spans[k] == rest[k - 1];
          assert SpanOk(s, sigil, e, rest[k - 1]);
        }
        forall k | 0 <= k < |spans| - 1
          ensures spans[k].end <= spans[k + 1].start
        {
          if k == 0 {
            assert SpanOk(s, sigil, e, rest[0]);
          } else {
            assert spans[k] == rest[k - 1] && spans[k + 1] == rest[k];
          }
        }
      } else {
        TagSpansFacts(s, sigil, i + 1);
        assert TagSpans(s, sigil, i) == TagSpans(s, sigil, i + 1);
        var spans := TagSpans(s, sigil, i);
        forall k | 0 <= k < |spans|
          ensures SpanOk(s, sigil, i, spans[k])
        {
          assert SpanOk(s, sigil, i + 1, spans[k]);
        }
      }
    }
  }

  function Starts(spans: seq<Span>): (r: seq<nat>)
    ensures |r| == |spans| && forall k :: 0 <= k < |spans| ==> r[k] == spans[k].start
  {
    if spans == [] then [] else [spans[0].start] + Starts(spans[1..])
  }

  /**
   * No tag is missed: since the sigil is not a word character it cannot sit inside an
   * earlier match, so every index where a tag can start is where one is reported.
   */
  lemma {:induction false} TagSpansComplete(s: string, sigil: char, i: nat, p: nat)
    requires !IsWordChar(sigil)
    requires i <= p < |s|
    ensures TagAt(s, sigil, p) <==> p in Starts(TagSpans(s, sigil, i))
    decreases |s| - i, 1
  {
    if TagAt(s, sigil, i) {
      TagSpansCompleteAtTag(s, sigil, i, p);
    } else if p == i {
      StartsFrom(s, sigil, i + 1, p);
    } else {
      TagSpansComplete(s, sigil, i + 1, p);
    }
  }

  /** The step of the completeness proof where the scan stands on a tag. */
  lemma {:induction false} TagSpansCompleteAtTag(s: string, sigil: char, i: nat, p: nat)
    requires !IsWordChar(sigil)
    requires i <= p < |s| && TagAt(s, sigil, i)
    ensures TagAt(s, sigil, p) <==> p in Starts(TagSpans(s, sigil, i))
    decreases |s| - i, 0
  {
    var e := WordRunEnd(s, i + 1);
    var rest := TagSpans(s, sigil, e);
    var spans := TagSpans(s, sigil, i);
    assert spans == [Span(i, e)] + rest;
    assert spans[1..] == rest;
    assert Starts(spans) == [i] + Starts(rest);
    if p == i {
    } else if p < e {
      WordRunFacts(s, i + 1);
      assert IsWordChar(s[p]);
      StartsFrom(s, sigil, e, p);
    } else {
      TagSpansComplete(s, sigil, e, p);
    }
  }

  /** A scan from `i` reports nothing that starts before `i`. */
  lemma StartsFrom(s: string, sigil: char, i: nat, p: nat)
    requires i <= |s| && p < i
    ensures p !in Starts(TagSpans(s, sigil, i))
  {
    TagSpansFacts(s, sigil, i);
    var spans := TagSpans(s, sigil, i);
    assert forall k :: 0 <= k < |spans| ==> Starts(spans)[k] >= i;
  }

  /** `text.match(/<sigil>[a-zA-Z0-9_]+/g) || []`: the matched texts, in order of appearance. */
  function ExtractTags(text: string, sigil: char): seq<string> {
    var spans := TagSpans(text, sigil, 0);
    SpanTextsAreTagTexts(text, sigil, 0);
    SpanTexts(text, spans)
  }

  /** One text per match, cut from the match's range: the sigil and at least one word character. */
  lemma ExtractTagsFacts(text: string, sigil: char)
    ensures var tags := ExtractTags(text, sigil);
      var spans := TagSpans(text, sigil, 0);
      && |tags| == |spans|
      && (forall k :: 0 <= k < |tags| ==>
            && 0 <= spans[k].start <= spans[k].end <= |text|
            && tags[k] == text[spans[k].start..spans[k].end])
      && (forall k :: 0 <= k < |tags| ==>
            && |tags[k]| >= 2
            && tags[k][0] == sigil
            && forall j :: 1 <= j < |tags[k]| ==> IsWordChar(tags[k][j]))
  {
    TagSpansFacts(text, sigil, 0);
    var tags := ExtractTags(text, sigil);
    var spans := TagSpans(text, sigil, 0);
    forall k | 0 <= k < |tags|
      ensures |tags[k]| >= 2 && tags[k][0] == sigil && forall j :: 1 <= j < |tags[k]| ==> IsWordChar(tags[k][j])
    {
      assert SpanOk(text, sigil, 0, spans[k]);
      assert forall j :: 1 <= j < |tags[k]| ==> tags[k][j] == text[spans[k].start + j];
    }
  }

  function ExtractHashtags(text: string): seq<string> {
    ExtractTags(text, '#')
  }

  function ExtractMentions(text: string): seq<string> {
    ExtractTags(text, '@')
  }

  /** A text in which no tag can start yields the empty list (the `|| []` of the source). */
  lemma {:induction false} NoTagsNoSpans(s: string, sigil: char, i: nat)
    requires i <= |s|
    requires forall p: nat :: i <= p < |s| ==> !TagAt(s, sigil, p)
    ensures TagSpans(s, sigil, i) == []
    decreases |s| - i
  {
    if i < |s| {
      NoTagsNoSpans(s, sigil, i + 1);
    }
  }

  /** The regex has no word boundary: a tag may start in the middle of a word or an address. */
  lemma TagsInsideWords()
    ensures ExtractHashtags("a#b c") == ["#b"]
    ensures ExtractMentions("me@host.com") == ["@host"]
  {
    var s := "a#b c";
    assert WordRunEnd(s, 3) == 3;
    assert WordRunEnd(s, 2) == 3;
    assert TagSpans(s, '#', 3) == [] by { NoTagsNoSpans(s, '#', 3); }
    assert TagSpans(s, '#', 1) == [Span(1, 3)];
    assert TagSpans(s, '#', 0) == [Span(1, 3)];
    assert s[1..3] == "#b";
    var t := "me@host.com";
    assert WordRunEnd(t, 7) == 7;
    assert WordRunEnd(t, 6) == 7;
    assert WordRunEnd(t, 5) == 7;
    assert WordRunEnd(t, 4) == 7;
    assert WordRunEnd(t, 3) == 7;
    assert TagSpans(t, '@', 7) == [] by { NoTagsNoSpans(t, '@', 7); }
    assert TagSpans(t, '@', 2) == [Span(2, 7)];
    assert TagSpans(t, '@', 1) == [Span(2, 7)];
    assert TagSpans(t, '@', 0) == [Span(2, 7)];
    assert t[2..7] == "@host";
  }

  /** The markup a match is wrapped in: the match goes between `open` and `close`. */
  datatype Markup = Markup(open: string, close: string)

  /**
   * The link markup of formatTextWithLinks,
   * `<span class="text-blue-600 hover:underline cursor-pointer">` and `</span>`; the opening
   * tag is written in pieces.
   */
  const LinkOpen := "<span class=\"" + "text-blue-600" + " " + "hover:underline" + " " + "cursor-pointer" + "\">"
  const LinkClose := "</span>"
  const Link := Markup(LinkOpen, LinkClose)

  /** `s.replace(/<sigil>([a-zA-Z0-9_]+)/g, m.open + '<sigil>$1' + m.close)`, from index `i` on. */
  function LinkTags(s: string, sigil: char, m: Markup, i: nat): string
    requires i <= |s|
    decreases |s| - i
  {
    if i == |s| then []
    else if TagAt(s, sigil, i) then
      var e := WordRunEnd(s, i + 1);
      m.open + s[i..e] + m.close + LinkTags(s, sigil, m, e)
    else [s[i]] + LinkTags(s, sigil, m, i + 1)
  }

  /** Where no tag can start, the replacement leaves the text as it was. */
  lemma {:induction false} LinkTagsNoTags(s: string, sigil: char, m: Markup, i: nat)
    requires i <= |s|
    requires forall p: nat :: i <= p < |s| ==> !TagAt(s, sigil, p)
    ensures LinkTags(s, sigil, m, i) == s[i..]
    decreases |s| - i
  {
    if i < |s| {
      LinkTagsNoTags(s, sigil, m, i + 1);
      assert s[i..] == [s[i]] + s[i + 1..];
    }
  }

  /** formatTextWithLinks: hashtags are wrapped first, then mentions in the result. */
  function FormatTextWithLinks(text: string): string {
    var withHashtags := LinkTags(text, '#', Link, 0);
    LinkTags(withHashtags, '@', Link, 0)
  }

  /** A text with neither a hashtag nor a mention is returned unchanged. */
  lemma FormatPlainText(text: string)
    requires forall p: nat :: p < |text| ==> !TagAt(text, '#', p) && !TagAt(text, '@', p)
    ensures FormatTextWithLinks(text) == text
  {
    LinkTagsNoTags(text, '#', Link, 0);
    assert text[0..] == text;
    LinkTagsNoTags(text, '@', Link, 0);
  }

  /** Spans in order inside `[lo, n]`: each starts at or after the previous one's end. */
  predicate Chain(spans: seq<Span>, lo: nat, n: nat)
    decreases |spans|
  {
    if spans == [] then lo <= n
    else lo <= spans[0].start <= spans[0].end <= n && Chain(spans[1..], spans[0].end, n)
  }

  /** The scan's matches from `i` form a chain inside the text. */
  lemma {:induction false} TagSpansChain(s: string, sigil: char, i: nat)
    requires i <= |s|
    ensures Chain(TagSpans(s, sigil, i), i, |s|)
    decreases |s| - i
  {
    if i < |s| {
      if TagAt(s, sigil, i) {
        var e := WordRunEnd(s, i + 1);
        TagSpansChain(s, sigil, e);
        assert ([Span(i, e)] + TagSpans(s, sigil, e))[1..] == TagSpans(s, sigil, e);
      } else {
        TagSpansChain(s, sigil, i + 1);
      }
    }
  }

  /**
   * The reference the replacement is checked against: the text from `i` with every span
   * wrapped in the link markup and everything between the spans copied through.
   */
  function Wrap(s: string, spans: seq<Span>, m: Markup, i: nat): string
    requires Chain(spans, i, |s|)
    decreases |spans|
  {
    if spans == [] then s[i..]
    else s[i..spans[0].start] + (Linked(s, spans[0], m) + Wrap(s, spans[1..], m, spans[0].end))
  }

  /** One span of `s` inside the link markup. */
  function Linked(s: string, sp: Span, m: Markup): string
    requires sp.start <= sp.end <= |s|
  {
    m.open + s[sp.start..sp.end] + m.close
  }

  /** Copying one more character in front of a chain that starts later. */
  lemma {:induction false} WrapStep(s: string, spans: seq<Span>, m: Markup, i: nat)
    requires i < |s| && Chain(spans, i + 1, |s|)
    ensures Chain(spans, i, |s|)
    ensures Wrap(s, spans, m, i) == [s[i]] + Wrap(s, spans, m, i + 1)
  {
    if spans == [] {
      assert s[i..] == [s[i]] + s[i + 1..];
    } else {
      var gap, tail := s[i + 1..spans[0].start], Linked(s, spans[0], m) + Wrap(s, spans[1..], m, spans[0].end);
      assert s[i..spans[0].start] == [s[i]] + gap;
      assert Wrap(s, spans, m, i) == ([s[i]] + gap) + tail;
    }
  }

  /**
   * The replacement wraps exactly the matches the scan finds, each whole, and leaves every
   * character outside them where it was.
   */
  lemma {:induction false} LinkTagsIsWrap(s: string, sigil: char, m: Markup, i: nat)
    requires i <= |s|
    ensures Chain(TagSpans(s, sigil, i), i, |s|) && LinkTags(s, sigil, m, i) == Wrap(s, TagSpans(s, sigil, i), m, i)
    decreases |s| - i
  {
    TagSpansChain(s, sigil, i);
    if i < |s| {
      if TagAt(s, sigil, i) {
        var e := WordRunEnd(s, i + 1);
        LinkTagsIsWrap(s, sigil, m, e);
        var spans := TagSpans(s, sigil, i);
        assert spans[0] == Span(i, e) && spans[1..] == TagSpans(s, sigil, e);
        assert s[i..i] == [];
      } else {
        LinkTagsIsWrap(s, sigil, m, i + 1);
        WrapStep(s, TagSpans(s, sigil, i + 1), m, i);
      }
    }
  }

  /** The run of word characters `s` starts with. */
  function LeadingWord(s: string): (w: string)
    ensures |w| <= |s|
    decreases |s|
  {
    if s != [] && IsWordChar(s[0]) then [s[0]] + LeadingWord(s[1..]) else []
  }

  /**
   * The matches of `/<sigil>[a-zA-Z0-9_]+/g` in `s`, scanning from the left without an index:
   * the index-free twin of `ExtractTags`, which composes over concatenation.
   */
  function TagTexts(s: string, sigil: char): seq<string>
    decreases |s|
  {
    if s == [] then []
    else if s[0] == sigil && LeadingWord(s[1..]) != [] then
      var w := LeadingWord(s[1..]);
      [[sigil] + w] + TagTexts(s[1 + |w|..], sigil)
    else TagTexts(s[1..], sigil)
  }

  /** The leading word from `j` is the run `WordRunEnd` measures. */
  lemma {:induction false} LeadingWordIsRun(s: string, j: nat)
    requires j <= |s|
    ensures LeadingWord(s[j..]) == s[j..WordRunEnd(s, j)]
    decreases |s| - j
  {
    if j < |s| && IsWordChar(s[j]) {
      LeadingWordIsRun(s, j + 1);
      assert s[j..][1..] == s[j + 1..];
      assert s[j..WordRunEnd(s, j)] == [s[j]] + s[j + 1..WordRunEnd(s, j)];
    }
  }

  /** Every span lies inside a text of length `n`. */
  predicate SpansWithin(spans: seq<Span>, n: nat) {
    forall k :: 0 <= k < |spans| ==> spans[k].start <= spans[k].end <= n
  }

  /** The texts the spans cut from `s`. */
  function SpanTexts(s: string, spans: seq<Span>): seq<string>
    requires SpansWithin(spans, |s|)
  {
    seq(|spans|, k requires 0 <= k < |spans| => s[spans[k].start..spans[k].end])
  }

  /** The scan's matches lie inside the text. */
  lemma {:induction false} TagSpansWithin(s: string, sigil: char, i: nat)
    requires i <= |s|
    ensures SpansWithin(TagSpans(s, sigil, i), |s|)
  {
    TagSpansFacts(s, sigil, i);
    var spans := TagSpans(s, sigil, i);
    assert forall k :: 0 <= k < |spans| ==> SpanOk(s, sigil, i, spans[k]);
  }

  /** The texts of a span list with one more span in front. */
  lemma {:induction false} SpanTextsCons(s: string, sp: Span, rest: seq<Span>)
    requires SpansWithin([sp] + rest, |s|)
    ensures sp.start <= sp.end <= |s| && SpansWithin(rest, |s|)
    ensures SpanTexts(s, [sp] + rest) == [s[sp.start..sp.end]] + SpanTexts(s, rest)
  {
    var spans := [sp] + rest;
    assert spans[0] == sp;
    assert forall k :: 0 <= k < |rest| ==> rest[k] == spans[k + 1];
    var texts, split := SpanTexts(s, spans), [s[sp.start..sp.end]] + SpanTexts(s, rest);
    forall k | 0 <= k < |texts|
      ensures texts[k] == split[k]
    {
      if k > 0 {
        assert spans[k] == rest[k - 1];
      }
    }
  }

  /** `ExtractTags` reads the same matches as the index-free scan of the text from `i`. */
  lemma {:induction false} SpanTextsAreTagTexts(s: string, sigil: char, i: nat)
    requires i <= |s|
    ensures SpansWithin(TagSpans(s, sigil, i), |s|)
    ensures SpanTexts(s, TagSpans(s, sigil, i)) == TagTexts(s[i..], sigil)
    decreases |s| - i
  {
    TagSpansWithin(s, sigil, i);
    if i < |s| {
      LeadingWordIsRun(s, i + 1);
      if TagAt(s, sigil, i) {
        var e := WordRunEnd(s, i + 1);
        SpanTextsAreTagTexts(s, sigil, e);
        SpanTextsCons(s, Span(i, e), TagSpans(s, sigil, e));
        TagTextsAtTag(s, sigil, i);
      } else {
        SpanTextsAreTagTexts(s, sigil, i + 1);
        assert s[i..][1..] == s[i + 1..];
      }
    }
  }

  /** The index-free scan standing on a tag reads the tag's whole run and resumes after it. */
  lemma {:induction false} TagTextsAtTag(s: string, sigil: char, i: nat)
    requires TagAt(s, sigil, i)
    ensures TagTexts(s[i..], sigil) == [s[i..WordRunEnd(s, i + 1)]] + TagTexts(s[WordRunEnd(s, i + 1)..], sigil)
  {
    var e := WordRunEnd(s, i + 1);
    LeadingWordIsRun(s, i + 1);
    assert s[i..][1..] == s[i + 1..];
    assert s[i..][1 + (e - i - 1)..] == s[e..];
    assert s[i..e] == [sigil] + s[i + 1..e];
  }

  /** A leading word is never extended by a text that does not start with a word character. */
  lemma {:induction false} LeadingWordAppend(a: string, b: string)
    requires LeadingWord(b) == []
    ensures LeadingWord(a + b) == LeadingWord(a)
    decreases |a|
  {
    if a == [] {
      assert a + b == b;
    } else {
      LeadingWordAppend(a[1..], b);
      assert (a + b)[1..] == a[1..] + b;
    }
  }

  /** Skipping the leading word finds no match, since the sigil is not a word character. */
  lemma {:induction false} SkipLeadingWord(x: string, sigil: char)
    requires !IsWordChar(sigil)
    ensures TagTexts(x[|LeadingWord(x)|..], sigil) == TagTexts(x, sigil)
    decreases |x|
  {
    if LeadingWord(x) != [] {
      SkipLeadingWord(x[1..], sigil);
      assert x[|LeadingWord(x)|..] == x[1..][|LeadingWord(x[1..])|..];
    }
  }

  /** The matches of `[c] + x`: a new one when `c` is the sigil and `x` starts with a word. */
  lemma {:induction false} TagTextsCons(c: char, x: string, sigil: char)
    requires !IsWordChar(sigil)
    ensures TagTexts([c] + x, sigil)
      == if c == sigil && LeadingWord(x) != [] then [[c] + LeadingWord(x)] + TagTexts(x, sigil) else TagTexts(x, sigil)
  {
    assert ([c] + x)[1..] == x;
    if c == sigil && LeadingWord(x) != [] {
      SkipLeadingWord(x, sigil);
      assert ([c] + x)[1 + |LeadingWord(x)|..] == x[|LeadingWord(x)|..];
    }
  }

  /** The leading word of `[c] + x`. */
  lemma {:induction false} LeadingWordCons(c: char, x: string)
    ensures LeadingWord([c] + x) == if IsWordChar(c) then [c] + LeadingWord(x) else []
  {
    assert ([c] + x)[1..] == x;
  }

  /** Texts meet without a match across the seam when the second does not start with a word character. */
  lemma {:induction false} TagTextsAppend(a: string, b: string, sigil: char)
    requires !IsWordChar(sigil) && LeadingWord(b) == []
    ensures TagTexts(a + b, sigil) == TagTexts(a, sigil) + TagTexts(b, sigil)
    decreases |a|
  {
    if a == [] {
      assert a + b == b;
    } else {
      var c, rest := a[0], a[1..];
      assert a == [c] + rest && a + b == [c] + (rest + b);
      TagTextsAppend(rest, b, sigil);
      LeadingWordAppend(rest, b);
      TagTextsCons(c, rest + b, sigil);
      TagTextsCons(c, rest, sigil);
    }
  }

  /** Without the sigil there is no match. */
  lemma {:induction false} NoSigilNoTexts(x: string, sigil: char)
    requires sigil !in x
    ensures TagTexts(x, sigil) == []
    decreases |x|
  {
    if x != [] {
      assert x[0] != sigil;
      NoSigilNoTexts(x[1..], sigil);
    }
  }

  /** The link markup has no mention sign, and starts with no word character. */
  lemma LinkMarkupFacts()
    ensures '@' !in Link.open && '@' !in Link.close
    ensures LeadingWord(Link.open) == [] && LeadingWord(Link.close) == []
  {
    assert '@' !in "<span class=\"" && '@' !in "text-blue-600";
    assert '@' !in "hover:underline" && '@' !in "cursor-pointer";
  }

  /** Markup and a tag with no match of their own, glued to a rest that starts with no word, add no match. */
  lemma {:induction false} GluedWithoutMatches(open: string, tag: string, close: string, rest: string, tail: string, other: char)
    requires !IsWordChar(other)
    requires LeadingWord(tag) == [] && LeadingWord(close) == []
    requires LeadingWord(rest) == [] && LeadingWord(tail) == []
    requires TagTexts(open, other) == [] && TagTexts(tag, other) == [] && TagTexts(close, other) == []
    requires TagTexts(rest, other) == TagTexts(tail, other)
    ensures TagTexts(open + tag + close + rest, other) == TagTexts(tag + tail, other)
  {
    var a := open + tag;
    var b := a + close;
    TagTextsAppend(open, tag, other);
    assert TagTexts(a, other) == [];
    TagTextsAppend(a, close, other);
    assert TagTexts(b, other) == [];
    TagTextsAppend(b, rest, other);
    TagTextsAppend(tag, tail, other);
  }

  /**
   * Wrapping the `sigil` tags keeps the matches of another sign `other` when the markup
   * holds no `other` and starts with no word character, and it keeps the leading word.
   */
  lemma {:induction false} LinkTagsKeepsOtherTags(s: string, sigil: char, m: Markup, other: char, i: nat)
    requires i <= |s|
    requires !IsWordChar(sigil) && !IsWordChar(other) && sigil != other
    requires other !in m.open && other !in m.close && LeadingWord(m.open) == [] && LeadingWord(m.close) == []
    ensures TagTexts(LinkTags(s, sigil, m, i), other) == TagTexts(s[i..], other)
    ensures LeadingWord(LinkTags(s, sigil, m, i)) == LeadingWord(s[i..])
    decreases |s| - i
  {
    if i < |s| {
      if TagAt(s, sigil, i) {
        LinkTagsKeepsOtherTags(s, sigil, m, other, WordRunEnd(s, i + 1));
        KeepsOtherTagsAtTag(s, sigil, m, other, i);
      } else {
        LinkTagsKeepsOtherTags(s, sigil, m, other, i + 1);
        assert s[i..] == [s[i]] + s[i + 1..];
        TagTextsCons(s[i], LinkTags(s, sigil, m, i + 1), other);
        TagTextsCons(s[i], s[i + 1..], other);
        LeadingWordCons(s[i], LinkTags(s, sigil, m, i + 1));
        LeadingWordCons(s[i], s[i + 1..]);
      }
    }
  }

  /** The step of the proof above where the replacement wraps a tag. */
  lemma {:induction false} KeepsOtherTagsAtTag(s: string, sigil: char, m: Markup, other: char, i: nat)
    requires TagAt(s, sigil, i)
    requires !IsWordChar(sigil) && !IsWordChar(other) && sigil != other
    requires other !in m.open && other !in m.close && LeadingWord(m.open) == [] && LeadingWord(m.close) == []
    requires var e := WordRunEnd(s, i + 1);
      && TagTexts(LinkTags(s, sigil, m, e), other) == TagTexts(s[e..], other)
      && LeadingWord(LinkTags(s, sigil, m, e)) == LeadingWord(s[e..])
    ensures TagTexts(LinkTags(s, sigil, m, i), other) == TagTexts(s[i..], other)
    ensures LeadingWord(LinkTags(s, sigil, m, i)) == LeadingWord(s[i..])
  {
    var e := WordRunEnd(s, i + 1);
    var tag, rest := s[i..e], LinkTags(s, sigil, m, e);
    TagHasNoOtherMatch(s, sigil, other, i);
    NoSigilNoTexts(m.open, other);
    NoSigilNoTexts(m.close, other);
    GluedWithoutMatches(m.open, tag, m.close, rest, s[e..], other);
    LinkTagsAtTag(s, sigil, m, i);
    LeadingWordAtTag(s, sigil, m, i);
  }

  /** Neither the replacement nor the text starts with a word where a tag starts. */
  lemma {:induction false} LeadingWordAtTag(s: string, sigil: char, m: Markup, i: nat)
    requires TagAt(s, sigil, i) && !IsWordChar(sigil) && LeadingWord(m.open) == []
    ensures LeadingWord(LinkTags(s, sigil, m, i)) == [] && LeadingWord(s[i..]) == []
  {
    var e := WordRunEnd(s, i + 1);
    var tail := s[i..e] + m.close + LinkTags(s, sigil, m, e);
    LinkTagsAtTag(s, sigil, m, i);
    assert LinkTags(s, sigil, m, i) == m.open + tail;
    assert tail[0] == sigil && s[i..][0] == sigil;
    LeadingWordAppend(m.open, tail);
  }

  /** The replacement standing on a tag: the markup around the tag, then the rest. */
  lemma {:induction false} LinkTagsAtTag(s: string, sigil: char, m: Markup, i: nat)
    requires TagAt(s, sigil, i)
    ensures LinkTags(s, sigil, m, i) == m.open + s[i..WordRunEnd(s, i + 1)] + m.close + LinkTags(s, sigil, m, WordRunEnd(s, i + 1))
  {
  }

  /**
   * A `sigil` tag holds no match of another sign, starts with no word character, and is
   * followed by none.
   */
  lemma {:induction false} TagHasNoOtherMatch(s: string, sigil: char, other: char, i: nat)
    requires TagAt(s, sigil, i)
    requires !IsWordChar(sigil) && !IsWordChar(other) && sigil != other
    ensures var e := WordRunEnd(s, i + 1);
      && s[i..] == s[i..e] + s[e..]
      && TagTexts(s[i..e], other) == []
      && LeadingWord(s[i..e]) == [] && LeadingWord(s[e..]) == [] && LeadingWord(s[i..]) == []
  {
    var e := WordRunEnd(s, i + 1);
    WordRunFacts(s, i + 1);
    LeadingWordIsRun(s, e);
    assert s[i..e][0] == sigil && s[i..][0] == sigil;
    assert forall k :: 1 <= k < e - i ==> s[i..e][k] == s[i + k];
    assert other !in s[i..e];
    NoSigilNoTexts(s[i..e], other);
  }

  /**
   * formatTextWithLinks wraps every hashtag the scan finds, then every mention of the
   * result, and the mentions of the result are exactly the mentions of the original text:
   * the hashtag markup neither hides nor forges one.
   */
  lemma FormatWrapsTags(text: string)
    ensures var withHashtags := LinkTags(text, '#', Link, 0);
      && Chain(TagSpans(text, '#', 0), 0, |text|)
      && withHashtags == Wrap(text, TagSpans(text, '#', 0), Link, 0)
      && Chain(TagSpans(withHashtags, '@', 0), 0, |withHashtags|)
      && FormatTextWithLinks(text) == Wrap(withHashtags, TagSpans(withHashtags, '@', 0), Link, 0)
      && ExtractMentions(withHashtags) == ExtractMentions(text)
  {
    var withHashtags := LinkTags(text, '#', Link, 0);
    LinkTagsIsWrap(text, '#', Link, 0);
    LinkTagsIsWrap(withHashtags, '@', Link, 0);
    LinkMarkupFacts();
    LinkTagsKeepsOtherTags(text, '#', Link, '@', 0);
    SpanTextsAreTagTexts(withHashtags, '@', 0);
    SpanTextsAreTagTexts(text, '@', 0);
    assert withHashtags[0..] == withHashtags && text[0..] == text;
  }

  // ---------------------------------------------------------------------------------------
  // isUserOnline, getGreeting

  /** isUserOnline: the whole minutes elapsed, floored, are fewer than 5. */
  function IsUserOnline(diffMs: int): (online: bool)
    ensures online <==> diffMs < 300_000
  {
    diffMs / MinuteMs < 5
  }

  /** getGreeting, by the hour `getHours()` reports. */
  function GetGreeting(hour: int): string {
    if hour < 12 then "Good morning" else if hour < 18 then "Good afternoon" else "Good evening"
  }

  function GreetingOrder(g: string): nat {
    if g == "Good morning" then 0 else if g == "Good afternoon" then 1 else 2
  }

  /** Over the day the greeting moves only forward, from morning to afternoon to evening. */
  lemma GreetingMonotone(h1: int, h2: int)
    requires h1 <= h2
    ensures GreetingOrder(GetGreeting(h1)) <= GreetingOrder(GetGreeting(h2))
    ensures GetGreeting(h1) in ["Good morning", "Good afternoon", "Good evening"]
  {
  }

  // ---------------------------------------------------------------------------------------
  // calculateReadingTime

  /** Reference count of words: maximal runs of non-whitespace characters. */
  function Words(s: string): nat
    decreases |s|
  {
    if s == [] then 0
    else if IsWhitespace(s[0]) then Words(s[1..])
    else 1 + Words(SkipWord(s))
  }

  lemma {:induction false} WordsTrimStart(s: string)
    ensures Words(TrimStart(s)) == Words(s)
    decreases |s|
  {
    if s != [] && IsWhitespace(s[0]) {
      WordsTrimStart(s[1..]);
    }
  }

  lemma {:induction false} SkipWordAppendSpace(x: string, c: char)
    requires IsWhitespace(c)
    ensures SkipWord(x + [c]) == SkipWord(x) + [c]
    decreases |x|
  {
    if x == [] {
    } else if !IsWhitespace(x[0]) {
      assert (x + [c])[1..] == x[1..] + [c];
      SkipWordAppendSpace(x[1..], c);
    }
  }

  lemma {:induction false} WordsAppendSpace(x: string, c: char)
    requires IsWhitespace(c)
    ensures Words(x + [c]) == Words(x)
    decreases |x|
  {
    if x == [] {
      assert Words([c]) == Words([]);
    } else if IsWhitespace(x[0]) {
      assert (x + [c])[1..] == x[1..] + [c];
      WordsAppendSpace(x[1..], c);
    } else {
      SkipWordAppendSpace(x, c);
      WordsAppendSpace(SkipWord(x), c);
    }
  }

  lemma {:induction false} WordsTrimEnd(s: string)
    ensures Words(TrimEnd(s)) == Words(s)
    decreases |s|
  {
    if s != [] && IsWhitespace(s[|s| - 1]) {
      var init := s[..|s| - 1];
      assert s == init + [s[|s| - 1]];
      WordsAppendSpace(init, s[|s| - 1]);
      WordsTrimEnd(init);
    }
  }

  /** In a text that ends on a non-blank, words and separating runs alternate. */
  lemma {:induction false} WordsVersusRuns(t: string)
    requires t != [] && !IsWhitespace(t[|t| - 1])
    ensures !IsWhitespace(t[0]) ==> Words(t) == 1 + WhitespaceRuns(t)
    ensures IsWhitespace(t[0]) ==> Words(t) == WhitespaceRuns(t)
    decreases |t|
  {
    if !IsWhitespace(t[0]) {
      var u := SkipWord(t);
      if u != [] {
        assert u[|u| - 1] == t[|t| - 1];
        WordsVersusRuns(u);
      }
    } else {
      var v := TrimStart(t);
      WordsTrimStart(t);
      TrimStartFacts(t);
      assert v != [];
      assert v[|v| - 1] == t[|t| - 1];
      WordsVersusRuns(v);
    }
  }

  /** `text.trim().split(/\s+/).length` counts the words, and counts a blank text as one word. */
  lemma SplitCountsWords(text: string)
    ensures SplitOnWhitespaceLength(Trim(text)) == if Words(text) == 0 then 1 else Words(text)
  {
    var t := Trim(text);
    TrimFacts(text);
    WordsTrimStart(text);
    WordsTrimEnd(TrimStart(text));
    assert Words(t) == Words(text);
    if t != [] {
      WordsVersusRuns(t);
    }
  }

  /** `Math.ceil(words / 200)` with the word count the source computes. */
  function ReadingMinutes(text: string): (m: nat)
    ensures m >= 1
    ensures var w := if Words(text) == 0 then 1 else Words(text); (m - 1) * 200 < w <= m * 200
  {
    SplitCountsWords(text);
    var words := SplitOnWhitespaceLength(Trim(text));
    (words + 199) / 200
  }

  /** calculateReadingTime. */
  function CalculateReadingTime(text: string): string {
    var minutes := ReadingMinutes(text);
    if minutes == 1 then "1 min read" else NatToString(minutes) + " min read"
  }

  /** The special case for one minute renders exactly what the general case would. */
  lemma ReadingTimeText(text: string)
    ensures CalculateReadingTime(text) == NatToString(ReadingMinutes(text)) + " min read"
    ensures CalculateReadingTime(text) == "1 min read" <==> Words(text) <= 200
  {
    var m := ReadingMinutes(text);
    assert NatToString(1) == "1";
    if m != 1 {
      OtherMinutesText(m);
    }
  }

  /** Any other number of minutes renders as a different label. */
  lemma OtherMinutesText(m: nat)
    requires m != 1
    ensures NatToString(m) + " min read" != "1 min read"
  {
    var r := NatToString(m);
    if m < 10 {
      assert (r + " min read")[0] == DigitChar(m) != '1';
    } else {
      assert |r| >= 2;
    }
  }
}
