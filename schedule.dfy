/**
 * The display helpers of the day-by-day schedule (ScheduleView.tsx): which
 * transport icon an item gets, whether it is drawn as a movement, whether
 * it has an image area, how its title is cleaned, how its note is cut into
 * bulleted lines and spacers, and which day a tab index selects.
 */
module Schedule {
  import opened Wrappers
  import opened Js

  // ---- Literals, as UTF-16 code units ----

  const TaxiEmoji: JsString := [0xD83D, 0xDE95]     // 🚕
  const BusEmoji: JsString := [0xD83D, 0xDE8E]      // 🚎
  const Arrow: JsString := [0x2192]                 // →
  const AsciiArrow: JsString := [0x2D, 0x3E]        // ->
  const Kix: JsString := [0x4B, 0x49, 0x58]         // KIX
  const Station: JsString := [0xC5ED]               // 역
  const TaxiFare: JsString := [0xD0DD, 0xC2DC, 0xBE44]   // 택시비
  const BusFare: JsString := [0xBC84, 0xC2A4, 0xBE44]    // 버스비
  const Fares: JsString := [0xAD50, 0xD1B5, 0xBE44]      // 교통비
  const InfoLabel: JsString := [0xC815, 0xBCF4]     // 정보
  const UnknownLabel: JsString := [0x55, 0x6E, 0x6B, 0x6E, 0x6F, 0x77, 0x6E]  // Unknown

  /** The `transport` values a schedule item may carry. */
  datatype Transport = Bus | Walk | Taxi | Train | Flight | Move

  /** The icons drawn in front of an item's time. */
  datatype Icon = BusIcon | FootprintsIcon | CarFrontIcon | TrainFrontIcon | PlaneIcon | MoveRightIcon

  /**
   * ScheduleItem, with the fields the helpers read: `expectedCost` is `None`
   * when absent, `noImage` is false when absent, `image` is `None` when
   * absent, and `images` is the length of the image list (`None` when absent).
   */
  datatype ScheduleItem = ScheduleItem(
    title: JsString,
    expectedCost: Option<JsString>,
    transport: Option<Transport>,
    noImage: bool,
    image: Option<JsString>,
    images: Option<nat>,
    note: Option<JsString>)

  datatype Day = Day(tabLabel: JsString, items: seq<ScheduleItem>)

  // ---- Transport icon ----

  /** The icon an explicit `transport` value stands for. */
  function IconOf(t: Transport): Icon {
    match t
    case Bus => BusIcon
    case Walk => FootprintsIcon
    case Taxi => CarFrontIcon
    case Train => TrainFrontIcon
    case Flight => PlaneIcon
    case Move => MoveRightIcon
  }

  /** The six transport values have six different icons. */
  lemma IconOfInjective(t: Transport, u: Transport)
    ensures IconOf(t) == IconOf(u) <==> t == u
  {
  }

  /** The keyword tests of the fallback, in the order they are tried. */
  predicate TaxiKeyword(item: ScheduleItem) {
    Contains(item.title, TaxiEmoji) || Contains(item.expectedCost.GetOr([]), TaxiFare)
  }

  predicate BusKeyword(item: ScheduleItem) {
    Contains(item.title, BusEmoji) || Contains(item.expectedCost.GetOr([]), BusFare)
  }

  predicate PlaneKeyword(item: ScheduleItem) {
    Contains(item.title, AsciiArrow) || Contains(item.title, Arrow) || Contains(item.title, Kix)
  }

  predicate TrainKeyword(item: ScheduleItem) {
    Contains(item.title, Station) || Contains(item.expectedCost.GetOr([]), Fares)
  }

  /**
   * `getTransportIcon`: an explicit `transport` decides; without one the
   * first matching keyword test decides; with none, no icon.
   */
  function TransportIcon(item: ScheduleItem): (r: Option<Icon>)
    ensures item.transport.Some? ==> r == Some(IconOf(item.transport.value))
    ensures r.None? <==> item.transport.None? && !TaxiKeyword(item) && !BusKeyword(item) && !PlaneKeyword(item) && !TrainKeyword(item)
  {
    match item.transport
    case Some(t) => Some(IconOf(t))
    case None =>
      if TaxiKeyword(item) then Some(CarFrontIcon)
      else if BusKeyword(item) then Some(BusIcon)
      else if PlaneKeyword(item) then Some(PlaneIcon)
      else if TrainKeyword(item) then Some(TrainFrontIcon)
      else None
  }

  /**
   * Keywords are tried in a fixed order: taxi before bus before plane before
   * train. So a title naming both a station and KIX, with no taxi or bus
   * keyword, gets the plane.
   */
  lemma KeywordPriority(item: ScheduleItem)
    requires item.transport.None?
    ensures TaxiKeyword(item) ==> TransportIcon(item) == Some(CarFrontIcon)
    ensures !TaxiKeyword(item) && BusKeyword(item) ==> TransportIcon(item) == Some(BusIcon)
    ensures !TaxiKeyword(item) && !BusKeyword(item) && PlaneKeyword(item) ==> TransportIcon(item) == Some(PlaneIcon)
    ensures !TaxiKeyword(item) && !BusKeyword(item) && Contains(item.title, Kix) ==> TransportIcon(item) == Some(PlaneIcon)
    ensures !TaxiKeyword(item) && !BusKeyword(item) && !PlaneKeyword(item) && TrainKeyword(item) ==> TransportIcon(item) == Some(TrainFrontIcon)
  {
  }

  /** `isMovement`: an explicit transport, or an arrow in the title. */
  predicate IsMovement(item: ScheduleItem) {
    item.transport.Some? || Contains(item.title, Arrow) || Contains(item.title, AsciiArrow)
  }

  /** Every movement gets an icon; one without a transport or taxi or bus keyword gets the plane. */
  lemma MovementHasIcon(item: ScheduleItem)
    requires IsMovement(item)
    ensures TransportIcon(item).Some?
    ensures item.transport.None? && !TaxiKeyword(item) && !BusKeyword(item) ==> TransportIcon(item) == Some(PlaneIcon)
  {
  }

  /** A title that begins with an arrow makes its item a movement. */
  lemma LeadingArrowIsMovement(item: ScheduleItem)
    requires StartsWith(item.title, Arrow) || StartsWith(item.title, AsciiArrow)
    ensures IsMovement(item)
  {
    assert item.title[0..] == item.title;
  }

  /** `hasImage`: not switched off, and an image or a non-empty image list. */
  predicate HasImage(item: ScheduleItem) {
    && !item.noImage
    && ((item.image.Some? && item.image.value != []) || (item.images.Some? && item.images.value > 0))
  }

  /** `noImage` always wins; without an image and with no image list, or an empty one, there is no image area. */
  lemma NoImageArea(item: ScheduleItem)
    ensures item.noImage ==> !HasImage(item)
    ensures (item.image.None? || item.image == Some([])) && (item.images.None? || item.images == Some(0)) ==> !HasImage(item)
  {
  }

  // ---- Display title ----

  /**
   * The leading-marker part of `/^([🚕→🚎]|\-\>)\s*\/` as it runs without
   * the `u` flag: the character class holds single code units, so it
   * matches one code unit of the emoji's surrogate pair; otherwise `->`.
   */
  function StripMarker(t: JsString): (r: JsString)
    ensures r == t || (|t| >= 1 && r == t[1..]) || (|t| >= 2 && r == t[2..])
  {
    if |t| > 0 && MarkerUnit(t[0]) then t[1..]
    else if StartsWith(t, AsciiArrow) then t[2..]
    else t
  }

  /** The code units of the character class `[🚕→🚎]` without the `u` flag. */
  predicate MarkerUnit(u: CodeUnit) {
    u == 0xD83D || u == 0xDE95 || u == 0x2192 || u == 0xDE8E
  }

  /** `displayTitle`: the marker and the white space after it removed, then trimmed. */
  function DisplayTitle(t: JsString): (r: JsString)
    ensures |r| <= |t|
  {
    Trim(TrimStart(StripMarker(t)))
  }

  /** The `\s*` after the marker adds nothing to the final trim. */
  lemma DisplayTitleIsTrimmedRemainder(t: JsString)
    ensures DisplayTitle(t) == Trim(StripMarker(t))
  {
    var s := StripMarker(t);
    var k := |s| - |TrimStart(s)|;
    assert s == s[..k] + TrimStart(s);
    TrimIgnoresBlankPrefix(s[..k], TrimStart(s));
  }

  /** A title that starts with no marker code unit and not with `->` is only trimmed. */
  lemma PlainTitleIsTrimmed(t: JsString)
    requires t == [] || !MarkerUnit(t[0])
    requires !StartsWith(t, AsciiArrow)
    ensures DisplayTitle(t) == Trim(t)
  {
    DisplayTitleIsTrimmedRemainder(t);
  }

  /** After `→` or `->` as written the title is the trimmed rest, as intended. */
  lemma ArrowsAreStripped(t: JsString)
    ensures DisplayTitle(Arrow + t) == Trim(t)
    ensures DisplayTitle(AsciiArrow + t) == Trim(t)
  {
    var s1 := Arrow + t;
    assert MarkerUnit(s1[0]) && s1[1..] == t;
    DisplayTitleIsTrimmedRemainder(s1);
    var s2 := AsciiArrow + t;
    assert !MarkerUnit(s2[0]) && s2[..2] == AsciiArrow && s2[2..] == t;
    DisplayTitleIsTrimmedRemainder(s2);
  }

  predicate IsHighSurrogate(u: CodeUnit) {
    0xD800 <= u <= 0xDBFF
  }

  predicate IsLowSurrogate(u: CodeUnit) {
    0xDC00 <= u <= 0xDFFF
  }

  /** Code unit `i` of `s` is not half of a broken surrogate pair. */
  predicate PairedAt(s: JsString, i: nat)
    requires i < |s|
  {
    && (IsHighSurrogate(s[i]) ==> i + 1 < |s| && IsLowSurrogate(s[i + 1]))
    && (IsLowSurrogate(s[i]) ==> 0 < i && IsHighSurrogate(s[i - 1]))
  }

  /** Well-formed UTF-16: every high surrogate is followed by a low one and every low one follows a high one. */
  predicate WellFormed(s: JsString) {
    forall i: nat :: i < |s| ==> PairedAt(s, i)
  }

  /** 🚕 in front of a well-formed title that does not start with a low surrogate is well-formed. */
  lemma TaxiPrefixWellFormed(t: JsString)
    requires WellFormed(t) && (t == [] || !IsLowSurrogate(t[0]))
    ensures WellFormed(TaxiEmoji + t)
  {
    var s := TaxiEmoji + t;
    forall i: nat | i < |s|
      ensures PairedAt(s, i)
    {
      if i == 1 && |t| > 0 {
        assert s[2] == t[0];
      } else if i >= 2 {
        assert PairedAt(t, i - 2);
        assert s[i] == t[i - 2];
        if i + 1 < |s| {
          assert s[i + 1] == t[i - 1];
        }
        if i > 2 {
          assert s[i - 1] == t[i - 3];
        }
      }
    }
  }

  /** As written, a title that starts with 🚕 loses only the emoji's first code unit. */
  lemma TaxiDisplayTitle(t: JsString)
    ensures DisplayTitle(TaxiEmoji + t) == Trim([0xDE95] + t)
  {
    var s := TaxiEmoji + t;
    assert MarkerUnit(s[0]) && s[1..] == [0xDE95] + t;
    DisplayTitleIsTrimmedRemainder(s);
  }

  /** Trimming keeps a first code unit that is not white space. */
  lemma TrimKeepsFirst(u: CodeUnit, t: JsString)
    requires !IsWhiteSpace(u)
    ensures Trim([u] + t) != [] && Trim([u] + t)[0] == u
  {
    var s := [u] + t;
    assert TrimStart(s) == s;
    assert !IsBlank(s) by {
      assert !IsWhiteSpace(s[0]);
    }
  }

  /**
   * As written, a title that starts with 🚕 keeps the second half of the
   * emoji: the displayed title begins with a lone low surrogate, so a
   * well-formed title becomes an ill-formed display string.
   */
  lemma TaxiTitleKeepsLowSurrogate(t: JsString)
    requires WellFormed(t) && (t == [] || !IsLowSurrogate(t[0]))
    ensures WellFormed(TaxiEmoji + t)
    ensures var r := DisplayTitle(TaxiEmoji + t); |r| > 0 && r[0] == 0xDE95 && !WellFormed(r)
  {
    TaxiPrefixWellFormed(t);
    TaxiDisplayStartsLow(t);
    LeadingLowSurrogate(DisplayTitle(TaxiEmoji + t));
  }

  /** As written, the displayed title of a 🚕 title starts with the emoji's low surrogate. */
  lemma TaxiDisplayStartsLow(t: JsString)
    ensures var r := DisplayTitle(TaxiEmoji + t); |r| > 0 && r[0] == 0xDE95
  {
    SurrogateIsNotWhiteSpace(0xDE95);
    TrimKeepsFirst(0xDE95, t);
    TaxiDisplayTitle(t);
  }

  /**
   * As written, the same happens to any emoji whose high surrogate is
   * 0xD83D (😀, 🚗, and 🚎 and 🚕 among them): the class holds 0xD83D on
   * its own, so the display title begins with the emoji's low surrogate.
   */
  lemma HighSurrogateAloneStripped(lo: CodeUnit, t: JsString)
    requires IsLowSurrogate(lo)
    ensures var r := DisplayTitle([0xD83D, lo] + t); |r| > 0 && r[0] == lo && !WellFormed(r)
  {
    var s := [0xD83D, lo] + t;
    assert MarkerUnit(s[0]) && s[1..] == [lo] + t;
    DisplayTitleIsTrimmedRemainder(s);
    SurrogateIsNotWhiteSpace(lo);
    TrimKeepsFirst(lo, t);
    LeadingLowSurrogate(DisplayTitle(s));
  }

  /** No half of a surrogate pair is white space. */
  lemma SurrogateIsNotWhiteSpace(u: CodeUnit)
    requires IsHighSurrogate(u) || IsLowSurrogate(u)
    ensures !IsWhiteSpace(u)
  {
  }

  /** A string that starts with a low surrogate is not well-formed. */
  lemma LeadingLowSurrogate(r: JsString)
    requires |r| > 0 && IsLowSurrogate(r[0])
    ensures !WellFormed(r)
  {
    assert !PairedAt(r, 0);
  }

  /** The markers as whole code points: 🚕, →, 🚎 and `->`. */
  const Markers: seq<JsString> := [TaxiEmoji, Arrow, BusEmoji, AsciiArrow]

  /**
   * How many leading code units the intended pattern removes: a whole 🚕,
   * →, 🚎 or `->`, otherwise none. The cut never falls inside a surrogate pair.
   */
  function MarkerLength(t: JsString): (n: nat)
    ensures n <= |t|
    ensures n > 0 ==> !IsHighSurrogate(t[n - 1])
  {
    if StartsWith(t, TaxiEmoji) || StartsWith(t, BusEmoji) || StartsWith(t, AsciiArrow) then
      assert t[1] == t[..2][1];
      2
    else if StartsWith(t, Arrow) then
      assert t[0] == t[..1][0];
      1
    else 0
  }

  /** Each marker is recognised whole. */
  lemma MarkerLengthOf(m: JsString, t: JsString)
    requires m in Markers
    ensures MarkerLength(m + t) == |m|
  {
    var s := m + t;
    assert s[..|m|] == m;
    assert s[0] == m[0];
  }

  /** `displayTitle` with the pattern matching whole emoji (the `u` flag). */
  function DisplayTitleIntended(t: JsString): (r: JsString)
    ensures |r| <= |t|
  {
    Trim(TrimStart(t[MarkerLength(t)..]))
  }

  /** The intended title drops any one leading marker and trims the rest. */
  lemma IntendedStripsMarker(m: JsString, t: JsString)
    requires m in Markers
    ensures DisplayTitleIntended(m + t) == Trim(t)
  {
    MarkerLengthOf(m, t);
    assert (m + t)[|m|..] == t;
    var u := TrimStart(t);
    var k := |t| - |u|;
    assert t == t[..k] + u;
    TrimIgnoresBlankPrefix(t[..k], u);
  }

  /** The intended title of a well-formed title is well-formed. */
  lemma IntendedKeepsWellFormed(t: JsString)
    requires WellFormed(t)
    ensures WellFormed(DisplayTitleIntended(t))
  {
    var s := t[MarkerLength(t)..];
    SuffixWellFormed(t, MarkerLength(t));
    var u := TrimStart(s);
    var k := |s| - |u|;
    if k > 0 {
      assert s[..k][k - 1] == s[k - 1];
      assert IsWhiteSpace(s[k - 1]);
    }
    SuffixWellFormed(s, k);
    var r := TrimEnd(u);
    if |r| < |u| {
      assert u[|r|..][0] == u[|r|];
      assert IsWhiteSpace(u[|r|]);
    }
    PrefixWellFormed(u, |r|);
  }

  /** Cutting after a code unit that is not a high surrogate leaves a well-formed tail. */
  lemma SuffixWellFormed(s: JsString, k: nat)
    requires WellFormed(s) && k <= |s| && (k == 0 || !IsHighSurrogate(s[k - 1]))
    ensures WellFormed(s[k..])
  {
    var tail := s[k..];
    forall i: nat | i < |tail|
      ensures PairedAt(tail, i)
    {
      assert PairedAt(s, k + i);
      assert tail[i] == s[k + i];
      if i + 1 < |tail| {
        assert tail[i + 1] == s[k + i + 1];
      }
      if i > 0 {
        assert tail[i - 1] == s[k + i - 1];
      }
    }
  }

  /** Cutting before a code unit that is not a low surrogate leaves a well-formed head. */
  lemma PrefixWellFormed(s: JsString, k: nat)
    requires WellFormed(s) && k <= |s| && (k == |s| || !IsLowSurrogate(s[k]))
    ensures WellFormed(s[..k])
  {
    var head := s[..k];
    forall i: nat | i < |head|
      ensures PairedAt(head, i)
    {
      assert PairedAt(s, i);
    }
  }

  // ---- Notes ----

  const LineFeed: CodeUnit := 0x0A

  /** `note.split('\n')`: the pieces between line feeds, at least one. */
  function SplitLines(s: JsString): (r: seq<JsString>)
    ensures |r| >= 1
    ensures forall i :: 0 <= i < |r| ==> LineFeed !in r[i]
  {
    if s == [] then [[]]
    else
      var rest := SplitLines(s[1..]);
      if s[0] == LineFeed then [[]] + rest
      else [[s[0]] + rest[0]] + rest[1..]
  }

  /** The pieces put back together with a line feed between neighbours. */
  function JoinLines(lines: seq<JsString>): JsString
    requires |lines| >= 1
  {
    if |lines| == 1 then lines[0] else lines[0] + [LineFeed] + JoinLines(lines[1..])
  }

  /** Splitting loses nothing: joining the pieces gives back the note. */
  lemma {:induction false} JoinSplitLines(s: JsString)
    ensures JoinLines(SplitLines(s)) == s
  {
    if s != [] {
      var rest := SplitLines(s[1..]);
      JoinSplitLines(s[1..]);
      if s[0] != LineFeed {
        var r := SplitLines(s);
        assert r[1..] == rest[1..];
        if |rest| > 1 {
          assert rest == [rest[0]] + rest[1..];
        }
      }
    }
  }

  /** And the pieces are exactly the lines: splitting a join of lines without line feeds gives them back. */
  lemma {:induction false} SplitJoinLines(lines: seq<JsString>)
    requires |lines| >= 1 && forall i :: 0 <= i < |lines| ==> LineFeed !in lines[i]
    ensures SplitLines(JoinLines(lines)) == lines
  {
    if |lines| == 1 {
      SplitLineWithoutFeed(lines[0], []);
      assert lines[0] + [] == lines[0] && SplitLines([]) == [[]];
      assert [lines[0]] == lines;
    } else {
      SplitJoinLines(lines[1..]);
      var tail := [LineFeed] + JoinLines(lines[1..]);
      assert SplitLines(tail) == [[]] + lines[1..] by {
        assert tail[1..] == JoinLines(lines[1..]);
      }
      SplitLineWithoutFeed(lines[0], tail);
      assert lines[0] + [LineFeed] + JoinLines(lines[1..]) == lines[0] + tail;
      assert lines[0] + [] == lines[0];
      assert ([[]] + lines[1..])[1..] == lines[1..];
      assert [lines[0]] + lines[1..] == lines;
    }
  }

  /** A line without a line feed joins the first piece of whatever follows it. */
  lemma {:induction false} SplitLineWithoutFeed(line: JsString, tail: JsString)
    requires LineFeed !in line
    ensures SplitLines(line + tail) == [line + SplitLines(tail)[0]] + SplitLines(tail)[1..]
  {
    if line != [] {
      SplitLineWithoutFeed(line[1..], tail);
      assert (line + tail)[1..] == line[1..] + tail;
      assert [line[0]] + (line[1..] + SplitLines(tail)[0]) == line + SplitLines(tail)[0];
    } else {
      assert line + tail == tail;
      var r := SplitLines(tail);
      assert line + r[0] == r[0];
      assert r == [r[0]] + r[1..];
    }
  }

  /** A line starting with `•`, `-` or `*` is drawn with a bullet. */
  predicate HasBullet(line: JsString) {
    |line| > 0 && (line[0] == 0x2022 || line[0] == 0x2D || line[0] == 0x2A)
  }

  /** The line without its bullet and at most one white space after it. */
  function CleanLine(line: JsString): (r: JsString)
    ensures !HasBullet(line) ==> r == line
    ensures HasBullet(line) ==> r == line[1..] || (|line| > 1 && IsWhiteSpace(line[1]) && r == line[2..])
    ensures HasBullet(line) && |line| > 1 && IsWhiteSpace(line[1]) ==> r == line[2..]
  {
    if !HasBullet(line) then line
    else if |line| > 1 && IsWhiteSpace(line[1]) then line[2..]
    else line[1..]
  }

  /** A row of a rendered note: a spacer, or a line with or without a bullet. */
  datatype NoteRow = Spacer | Line(bulleted: bool, text: JsString)

  /** Line `i` of a note: blank after its bullet and not the first line, it becomes a spacer. */
  function RenderLine(line: JsString, i: nat): (r: NoteRow)
    ensures r.Spacer? <==> i > 0 && IsBlank(CleanLine(line))
    ensures r.Line? ==> r.bulleted == HasBullet(line) && r.text == CleanLine(line)
  {
    var text := CleanLine(line);
    if Trim(text) == [] && i > 0 then Spacer else Line(HasBullet(line), text)
  }

  /** The rows of a note, one per line, numbered from `start`. */
  function RenderLines(lines: seq<JsString>, start: nat): (r: seq<NoteRow>)
    ensures |r| == |lines|
    ensures forall i :: 0 <= i < |lines| ==> r[i] == RenderLine(lines[i], start + i)
  {
    if lines == [] then [] else [RenderLine(lines[0], start)] + RenderLines(lines[1..], start + 1)
  }

  /** The notes section: nothing for an absent or empty note, otherwise one row per line. */
  function RenderNote(note: Option<JsString>): (r: seq<NoteRow>)
    ensures note.None? || note == Some([]) ==> r == []
    ensures note.Some? && note.value != [] ==> |r| == |SplitLines(note.value)| && r[0].Line?
  {
    match note
    case None => []
    case Some(s) => if s == [] then [] else RenderLines(SplitLines(s), 0)
  }

  /** A bullet line with text is drawn bulleted, its text what follows the bullet and one white space. */
  lemma BulletLine(b: CodeUnit, w: CodeUnit, t: JsString, i: nat)
    requires b == 0x2022 || b == 0x2D || b == 0x2A
    requires IsWhiteSpace(w) && !IsBlank(t)
    ensures RenderLine([b, w] + t, i) == Line(true, t)
  {
    assert ([b, w] + t)[2..] == t;
  }

  // ---- Day selection ----

  /** `safeData[selectedDay] || { label: 'Unknown', items: [] }`. */
  function DayAt(days: seq<Day>, index: int): (r: Day)
    ensures 0 <= index < |days| ==> r == days[index]
    ensures !(0 <= index < |days|) ==> r.tabLabel == UnknownLabel && r.items == []
  {
    if 0 <= index < |days| then days[index] else Day(UnknownLabel, [])
  }

  /** The info tab is the day labelled '정보'. */
  predicate IsInfoTab(day: Day) {
    day.tabLabel == InfoLabel
  }

  /** An index outside the days is never the info tab and has nothing to show. */
  lemma UnknownDayIsNotInfo(days: seq<Day>, index: int)
    requires !(0 <= index < |days|)
    ensures !IsInfoTab(DayAt(days, index)) && DayAt(days, index).items == []
  {
    assert UnknownLabel[0] != InfoLabel[0];
  }
}
