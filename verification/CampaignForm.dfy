/** The publisher's campaign form: local date-time text, its instant, and the order the form demands. */
module CampaignForm {
  import opened Base
  import opened Text
  import opened Calendar

  const SECONDS_PER_DAY: nat := 86400

  datatype Moment = Moment(date: Date, hour: int, minute: int, second: int)

  datatype EditorType = FreeClaim | DiscountedPrice | TimedAccessPolicy

  datatype Form = Form(campaignId: string, startsAt: string, endsAt: string, campaignType: EditorType)

  datatype FormError =
    | MissingCampaignId | MissingStart | MissingEnd | InvalidStart | InvalidEnd | EndMustFollowStart
    | UnsupportedCampaignType

  // ---------- reading a local date-time ----------

  function ParseDate(text: string): Option<Date> {
    var parts := Split(text, '-');
    if |parts| != 3 then None
    else
      match (ParseI64(parts[0]), ParseI64(parts[1]), ParseI64(parts[2]))
      case (Some(year), Some(month), Some(day)) => Some(Date(year, month, day))
      case _ => None
  }

  function ParseTime(text: string): Option<(int, int, int)> {
    var parts := Split(text, ':');
    if |parts| != 2 && |parts| != 3 then None
    else
      match (ParseU64(parts[0]), ParseU64(parts[1]), if |parts| == 3 then ParseU64(parts[2]) else Some(0))
      case (Some(hour), Some(minute), Some(second)) => Some((hour, minute, second))
      case _ => None
  }

  predicate InDay(m: Moment) {
    0 <= m.hour <= 23 && 0 <= m.minute <= 59 && 0 <= m.second <= 59
  }

  function DatetimeLocalParts(value: string): (r: Option<Moment>)
    ensures r.Some? ==> IsValid(r.value.date) && InDay(r.value)
  {
    match SplitOnce(value, 'T')
    case None => None
    case Some(halves) =>
      match (ParseDate(halves.0), ParseTime(halves.1))
      case (Some(date), Some(time)) =>
        var m := Moment(date, time.0, time.1, time.2);
        if !IsValid(date) || !InDay(m) then None else Some(m)
      case _ => None
  }

  function Instant(m: Moment, days: nat): int {
    days * SECONDS_PER_DAY + m.hour * 3600 + m.minute * 60 + m.second
  }

  /** The instant named by the text; none before 1970. */
  function DatetimeLocalToUnix(value: string): Option<int> {
    match DatetimeLocalParts(value)
    case None => None
    case Some(m) =>
      match DaysFromCivil(m.date)
      case None => None
      case Some(days) => Some(Instant(m, days))
  }

  // ---------- which texts are read, and as what ----------

  ghost predicate TwoPieces(text: string, c: char, a: string, b: string) {
    text == a + [c] + b && c !in a && c !in b
  }

  ghost predicate ThreePieces(text: string, c: char, a: string, b: string, d: string) {
    text == a + [c] + (b + [c] + d) && c !in a && c !in b && c !in d
  }

  lemma SplitFirst(text: string, c: char)
    requires |Split(text, c)| > 1
    ensures SplitOnce(text, c).Some?
    ensures
      var halves := SplitOnce(text, c).value;
      Split(text, c)[0] == halves.0 && Split(text, c)[1..] == Split(halves.1, c)
  {
  }

  lemma SplitsInOne(text: string, c: char, a: string)
    ensures Split(text, c) == [a] <==> text == a && c !in a
  {
    if SplitOnce(text, c).Some? {
      assert |Split(text, c)| > 1;
    }
  }

  lemma SplitsInTwo(text: string, c: char, a: string, b: string)
    ensures Split(text, c) == [a, b] <==> TwoPieces(text, c, a, b)
  {
    if TwoPieces(text, c, a, b) {
      SplitHead(a, c, b);
      SplitsInOne(b, c, b);
    }
    if Split(text, c) == [a, b] {
      SplitFirst(text, c);
      SplitsInOne(SplitOnce(text, c).value.1, c, b);
    }
  }

  lemma SplitsInThree(text: string, c: char, a: string, b: string, d: string)
    ensures Split(text, c) == [a, b, d] <==> ThreePieces(text, c, a, b, d)
  {
    if ThreePieces(text, c, a, b, d) {
      SplitHead(a, c, b + [c] + d);
      SplitsInTwo(b + [c] + d, c, b, d);
    }
    if Split(text, c) == [a, b, d] {
      SplitFirst(text, c);
      SplitsInTwo(SplitOnce(text, c).value.1, c, b, d);
    }
  }

  /** Year, month and day, written as signed numbers and joined by dashes; so no year is negative. */
  ghost predicate SpellsDate(text: string, date: Date) {
    exists y, m, d ::
      && ThreePieces(text, '-', y, m, d)
      && ParseI64(y) == Some(date.year) && ParseI64(m) == Some(date.month) && ParseI64(d) == Some(date.day)
  }

  /** Hour and minute, joined by a colon, and a second after another, or else 0. */
  ghost predicate SpellsTime(text: string, hour: int, minute: int, second: int) {
    || (exists h, m ::
          && TwoPieces(text, ':', h, m)
          && ParseU64(h) == Some(hour) && ParseU64(m) == Some(minute) && second == 0)
    || (exists h, m, s ::
          && ThreePieces(text, ':', h, m, s)
          && ParseU64(h) == Some(hour) && ParseU64(m) == Some(minute) && ParseU64(s) == Some(second))
  }

  lemma ParsesDateIff(text: string, date: Date)
    ensures ParseDate(text) == Some(date) <==> SpellsDate(text, date)
  {
    var parts := Split(text, '-');
    if ParseDate(text) == Some(date) {
      assert parts == [parts[0], parts[1], parts[2]];
      SplitsInThree(text, '-', parts[0], parts[1], parts[2]);
    }
    if SpellsDate(text, date) {
      var y, m, d :| ThreePieces(text, '-', y, m, d)
        && ParseI64(y) == Some(date.year) && ParseI64(m) == Some(date.month) && ParseI64(d) == Some(date.day);
      SplitsInThree(text, '-', y, m, d);
    }
  }

  lemma ParsedTimeIsSpelled(text: string, hour: int, minute: int, second: int)
    requires ParseTime(text) == Some((hour, minute, second))
    ensures SpellsTime(text, hour, minute, second)
  {
    var parts := Split(text, ':');
    if |parts| == 2 {
      assert parts == [parts[0], parts[1]];
      SplitsInTwo(text, ':', parts[0], parts[1]);
    } else {
      assert parts == [parts[0], parts[1], parts[2]];
      SplitsInThree(text, ':', parts[0], parts[1], parts[2]);
    }
  }

  lemma PairParses(text: string, h: string, m: string, hour: int, minute: int)
    requires TwoPieces(text, ':', h, m) && ParseU64(h) == Some(hour) && ParseU64(m) == Some(minute)
    ensures ParseTime(text) == Some((hour, minute, 0))
  {
    SplitsInTwo(text, ':', h, m);
  }

  lemma TripleParses(text: string, h: string, m: string, s: string, hour: int, minute: int, second: int)
    requires ThreePieces(text, ':', h, m, s)
    requires ParseU64(h) == Some(hour) && ParseU64(m) == Some(minute) && ParseU64(s) == Some(second)
    ensures ParseTime(text) == Some((hour, minute, second))
  {
    SplitsInThree(text, ':', h, m, s);
  }

  lemma SpelledTimeParses(text: string, hour: int, minute: int, second: int)
    requires SpellsTime(text, hour, minute, second)
    ensures ParseTime(text) == Some((hour, minute, second))
  {
    if h, m :| TwoPieces(text, ':', h, m) && ParseU64(h) == Some(hour) && ParseU64(m) == Some(minute) && second == 0 {
      PairParses(text, h, m, hour, minute);
    } else {
      var h, m, s :| ThreePieces(text, ':', h, m, s)
        && ParseU64(h) == Some(hour) && ParseU64(m) == Some(minute) && ParseU64(s) == Some(second);
      TripleParses(text, h, m, s, hour, minute, second);
    }
  }

  /** A date and a time around the first T, naming a day of the calendar and a time of that day. */
  ghost predicate Spells(value: string, m: Moment) {
    && IsValid(m.date) && InDay(m)
    && exists d, t ::
      && SplitOnce(value, 'T') == Some((d, t))
      && SpellsDate(d, m.date) && SpellsTime(t, m.hour, m.minute, m.second)
  }

  /** A text is read as `m` exactly when it spells `m`. */
  lemma ReadsWhatIsSpelled(value: string, m: Moment)
    ensures DatetimeLocalParts(value) == Some(m) <==> Spells(value, m)
  {
    if SplitOnce(value, 'T').Some? {
      var d, t := SplitOnce(value, 'T').value.0, SplitOnce(value, 'T').value.1;
      ParsesDateIff(d, m.date);
      if ParseTime(t) == Some((m.hour, m.minute, m.second)) {
        ParsedTimeIsSpelled(t, m.hour, m.minute, m.second);
      }
      if SpellsTime(t, m.hour, m.minute, m.second) {
        SpelledTimeParses(t, m.hour, m.minute, m.second);
      }
      assert Spells(value, m) <==>
        IsValid(m.date) && InDay(m) && SpellsDate(d, m.date) && SpellsTime(t, m.hour, m.minute, m.second);
    }
  }

  /** `t` is that many seconds after 1970: 86400 for each day since then, and those of the day itself. */
  predicate IsInstantOf(m: Moment, t: int) {
    !Before(m.date, Date(1970, 1, 1)) && t == 86400 * DayNumber(m.date) + 3600 * m.hour + 60 * m.minute + m.second
  }

  lemma DaysSinceEpoch(date: Date)
    requires IsValid(date)
    ensures DaysFromCivil(date) == if Before(date, Date(1970, 1, 1)) then None else Some(DayNumber(date))
  {
    ConversionsAreInverse(date, 0);
  }

  lemma InstantIs(m: Moment, days: nat)
    ensures Instant(m, days) == 86400 * days + 3600 * m.hour + 60 * m.minute + m.second
  {
  }

  lemma ToUnix(value: string, m: Moment)
    requires DatetimeLocalParts(value) == Some(m)
    ensures DaysFromCivil(m.date) == None ==> DatetimeLocalToUnix(value) == None
    ensures forall days :: DaysFromCivil(m.date) == Some(days) ==> DatetimeLocalToUnix(value) == Some(Instant(m, days))
  {
  }

  lemma InstantWithDays(m: Moment, days: nat, t: int)
    requires DaysFromCivil(m.date) == Some(days) && IsValid(m.date)
    ensures Instant(m, days) == t <==> IsInstantOf(m, t)
  {
    DaysSinceEpoch(m.date);
    InstantIs(m, days);
  }

  lemma InstantOfMoment(value: string, m: Moment, t: int)
    requires DatetimeLocalParts(value) == Some(m)
    ensures DatetimeLocalToUnix(value) == Some(t) <==> IsInstantOf(m, t)
  {
    ToUnix(value, m);
    DaysSinceEpoch(m.date);
    if DaysFromCivil(m.date).Some? {
      InstantWithDays(m, DaysFromCivil(m.date).value, t);
    }
  }

  /** A text is read as the instant `t` exactly when it spells a moment not before 1970 and `t` is its instant. */
  lemma ReadsInstantIff(value: string, t: int)
    ensures DatetimeLocalToUnix(value) == Some(t) <==> exists m :: Spells(value, m) && IsInstantOf(m, t)
  {
    if DatetimeLocalParts(value).Some? {
      ReadsWhatIsSpelled(value, DatetimeLocalParts(value).value);
      InstantOfMoment(value, DatetimeLocalParts(value).value, t);
    }
    if m :| Spells(value, m) && IsInstantOf(m, t) {
      ReadsWhatIsSpelled(value, m);
    }
  }

  // ---------- order ----------

  predicate Earlier(a: Moment, b: Moment) {
    || Before(a.date, b.date)
    || (&& a.date == b.date
        && (|| a.hour < b.hour
            || (a.hour == b.hour && (a.minute < b.minute || (a.minute == b.minute && a.second < b.second)))))
  }

  lemma InstantsKeepOrder(a: Moment, i: nat, b: Moment, j: nat)
    requires InDay(a) && InDay(b)
    ensures Instant(a, i) < Instant(b, j) <==>
      i < j || (i == j && (a.hour < b.hour || (a.hour == b.hour &&
        (a.minute < b.minute || (a.minute == b.minute && a.second < b.second)))))
  {
    var x := a.hour * 3600 + a.minute * 60 + a.second;
    var y := b.hour * 3600 + b.minute * 60 + b.second;
    assert 0 <= x < SECONDS_PER_DAY && 0 <= y < SECONDS_PER_DAY;
  }

  /** Text names a later instant exactly when its fields are lexicographically later. */
  lemma UnixIsStrictlyMonotone(a: string, b: string)
    requires DatetimeLocalToUnix(a).Some? && DatetimeLocalToUnix(b).Some?
    ensures DatetimeLocalToUnix(a).value < DatetimeLocalToUnix(b).value <==>
      Earlier(DatetimeLocalParts(a).value, DatetimeLocalParts(b).value)
  {
    var x, y := DatetimeLocalParts(a).value, DatetimeLocalParts(b).value;
    DayNumbersKeepOrder(x.date, y.date);
    InstantsKeepOrder(x, DaysFromCivil(x.date).value, y, DaysFromCivil(y.date).value);
  }

  // ---------- validation ----------

  function ValidateCampaignForm(form: Form): Result<(int, int), FormError> {
    if Trim(form.campaignId) == "" then Failure(MissingCampaignId)
    else if form.campaignType != FreeClaim then Failure(UnsupportedCampaignType)
    else if Trim(form.startsAt) == "" then Failure(MissingStart)
    else if Trim(form.endsAt) == "" then Failure(MissingEnd)
    else
      var starts :- OkOr(DatetimeLocalToUnix(form.startsAt), InvalidStart);
      var ends :- OkOr(DatetimeLocalToUnix(form.endsAt), InvalidEnd);
      if starts >= ends then Failure(EndMustFollowStart) else Success((starts, ends))
  }

  lemma {:induction false} TrimKeepsInk(s: string, c: char)
    requires c in s && !IsWhitespace(c)
    ensures Trim(s) != ""
    decreases |s|
  {
    if IsWhitespace(s[0]) {
      assert s == [s[0]] + s[1..];
      TrimKeepsInk(s[1..], c);
    } else if IsWhitespace(s[|s| - 1]) {
      assert s == s[..|s| - 1] + [s[|s| - 1]];
      TrimKeepsInk(s[..|s| - 1], c);
    }
  }

  lemma DatedTextHasInk(value: string)
    requires DatetimeLocalToUnix(value).Some?
    ensures Trim(value) != ""
  {
    assert SplitOnce(value, 'T').Some?;
    TrimKeepsInk(value, 'T');
  }

  lemma BlankTextHasNoInstant(form: Form)
    ensures DatetimeLocalToUnix(form.startsAt).Some? ==> Trim(form.startsAt) != ""
    ensures DatetimeLocalToUnix(form.endsAt).Some? ==> Trim(form.endsAt) != ""
  {
    if DatetimeLocalToUnix(form.startsAt).Some? {
      DatedTextHasInk(form.startsAt);
    }
    if DatetimeLocalToUnix(form.endsAt).Some? {
      DatedTextHasInk(form.endsAt);
    }
  }

  ghost predicate OrderedInstants(starts: string, ends: string) {
    && DatetimeLocalToUnix(starts).Some? && DatetimeLocalToUnix(ends).Some?
    && Earlier(DatetimeLocalParts(starts).value, DatetimeLocalParts(ends).value)
  }

  lemma OrderedInstantsIff(starts: string, ends: string)
    ensures OrderedInstants(starts, ends) <==>
      && DatetimeLocalToUnix(starts).Some? && DatetimeLocalToUnix(ends).Some?
      && DatetimeLocalToUnix(starts).value < DatetimeLocalToUnix(ends).value
  {
    if DatetimeLocalToUnix(starts).Some? && DatetimeLocalToUnix(ends).Some? {
      UnixIsStrictlyMonotone(starts, ends);
    }
  }

  lemma ValidationChecksInstants(form: Form)
    requires Trim(form.campaignId) != "" && form.campaignType == FreeClaim
    requires DatetimeLocalToUnix(form.startsAt).Some? && DatetimeLocalToUnix(form.endsAt).Some?
    ensures
      var starts, ends := DatetimeLocalToUnix(form.startsAt).value, DatetimeLocalToUnix(form.endsAt).value;
      ValidateCampaignForm(form) == if starts < ends then Success((starts, ends)) else Failure(EndMustFollowStart)
  {
    BlankTextHasNoInstant(form);
  }

  /** The form is accepted exactly when it names a free-claim campaign and two instants in order. */
  lemma FormAcceptsOrderedInstants(form: Form)
    ensures ValidateCampaignForm(form).Success? <==>
      && Trim(form.campaignId) != "" && form.campaignType == FreeClaim
      && OrderedInstants(form.startsAt, form.endsAt)
    ensures ValidateCampaignForm(form).Success? ==>
      && DatetimeLocalToUnix(form.startsAt) == Some(ValidateCampaignForm(form).value.0)
      && DatetimeLocalToUnix(form.endsAt) == Some(ValidateCampaignForm(form).value.1)
  {
    OrderedInstantsIff(form.startsAt, form.endsAt);
    if
      && Trim(form.campaignId) != "" && form.campaignType == FreeClaim
      && DatetimeLocalToUnix(form.startsAt).Some? && DatetimeLocalToUnix(form.endsAt).Some?
    {
      ValidationChecksInstants(form);
    }
  }

  /** The form has an id, the free-claim type and two times that are not blank. */
  predicate IsFilled(form: Form) {
    && Trim(form.campaignId) != "" && form.campaignType == FreeClaim
    && Trim(form.startsAt) != "" && Trim(form.endsAt) != ""
  }

  /** A form that is not filled is refused for the first thing missing. */
  lemma UnfilledRefusedFor(form: Form)
    requires !IsFilled(form)
    ensures ValidateCampaignForm(form) == Failure(
      if Trim(form.campaignId) == "" then MissingCampaignId
      else if form.campaignType != FreeClaim then UnsupportedCampaignType
      else if Trim(form.startsAt) == "" then MissingStart
      else MissingEnd)
  {
  }

  /** A filled form is refused for the first time that is not an instant, or for instants out of order. */
  lemma FilledRefusedFor(form: Form)
    requires IsFilled(form)
    ensures
      var starts, ends := DatetimeLocalToUnix(form.startsAt), DatetimeLocalToUnix(form.endsAt);
      && (ValidateCampaignForm(form) == Failure(InvalidStart) <==> starts == None)
      && (ValidateCampaignForm(form) == Failure(InvalidEnd) <==> starts != None && ends == None)
      && (ValidateCampaignForm(form) == Failure(EndMustFollowStart) <==>
           starts != None && ends != None && ends.value <= starts.value)
  {
    if DatetimeLocalToUnix(form.startsAt).Some? && DatetimeLocalToUnix(form.endsAt).Some? {
      ValidationChecksInstants(form);
    }
  }

  // ---------- writing a day and reading it back ----------

  function DateText(date: Date): string
    requires date.year >= 0 && date.month >= 0 && date.day >= 0
  {
    Padded(date.year, 4) + ['-'] + (Padded(date.month, 2) + ['-'] + Padded(date.day, 2))
  }

  lemma CivilIsPositive(days: nat)
    requires days <= U64_MAX / SECONDS_PER_DAY
    ensures var date := CivilFromDays(days);
      IsValid(date) && 1 <= date.year <= I64_MAX && 1 <= date.month <= 12 && 1 <= date.day <= 31
  {
    DayNumberOfCivil(days);
    var date := CivilFromDays(days);
    EpochIsDayZero();
    DayNumbersKeepOrder(date, EPOCH);
    YearBound(date);
  }

  lemma YearBound(date: Date)
    requires IsValid(date) && DayNumber(date) <= U64_MAX / SECONDS_PER_DAY
    ensures date.year <= I64_MAX
  {
    var era, c, q, s := DayNumberSplits(date);
  }

  function UnixDay(now: u64): string {
    var date := CivilFromDays(now / SECONDS_PER_DAY);
    CivilIsPositive(now / SECONDS_PER_DAY);
    DateText(date)
  }

  function TimeText(hour: nat, minute: nat, second: Option<nat>): string {
    var h, m := Padded(hour, 2), Padded(minute, 2);
    if second.Some? then h + [':'] + (m + [':'] + Padded(second.value, 2)) else h + [':'] + m
  }

  lemma PlainPart(s: string, c: char)
    requires AllDigits(s) && !IsDigit(c)
    ensures Split(s, c) == [s]
  {
    DigitsAvoid(s, c);
  }

  lemma DatePartsSplit(y: string, m: string, d: string)
    requires AllDigits(y) && AllDigits(m) && AllDigits(d)
    ensures Split(y + ['-'] + (m + ['-'] + d), '-') == [y, m, d]
  {
    DigitsAvoid(y, '-');
    DigitsAvoid(m, '-');
    SplitHead(y, '-', m + ['-'] + d);
    SplitHead(m, '-', d);
    PlainPart(d, '-');
  }

  lemma DatePartsReadBack(y: string, m: string, d: string, date: Date)
    requires AllDigits(y) && AllDigits(m) && AllDigits(d)
    requires ParseI64(y) == Some(date.year) && ParseI64(m) == Some(date.month) && ParseI64(d) == Some(date.day)
    ensures ParseDate(y + ['-'] + (m + ['-'] + d)) == Some(date)
    ensures 'T' !in y + ['-'] + (m + ['-'] + d)
  {
    DatePartsSplit(y, m, d);
    DigitsAvoid(y, 'T');
    DigitsAvoid(m, 'T');
    DigitsAvoid(d, 'T');
  }

  lemma DateReadsBack(date: Date)
    requires 0 <= date.year <= I64_MAX && 0 <= date.month <= I64_MAX && 0 <= date.day <= I64_MAX
    ensures ParseDate(DateText(date)) == Some(date)
    ensures 'T' !in DateText(date)
  {
    ParseDigits(Padded(date.year, 4));
    ParseDigits(Padded(date.month, 2));
    ParseDigits(Padded(date.day, 2));
    DatePartsReadBack(Padded(date.year, 4), Padded(date.month, 2), Padded(date.day, 2), date);
  }

  lemma PairSplits(h: string, m: string)
    requires AllDigits(h) && AllDigits(m)
    ensures Split(h + [':'] + m, ':') == [h, m]
  {
    DigitsAvoid(h, ':');
    SplitHead(h, ':', m);
    PlainPart(m, ':');
  }

  lemma TripleSplits(h: string, m: string, s: string)
    requires AllDigits(h) && AllDigits(m) && AllDigits(s)
    ensures Split(h + [':'] + (m + [':'] + s), ':') == [h, m, s]
  {
    DigitsAvoid(h, ':');
    PairSplits(m, s);
    SplitHead(h, ':', m + [':'] + s);
  }

  lemma ClockReadsBack(h: string, m: string, s: string, hour: u64, minute: u64, second: u64)
    requires AllDigits(h) && AllDigits(m) && AllDigits(s)
    requires ParseU64(h) == Some(hour) && ParseU64(m) == Some(minute) && ParseU64(s) == Some(second)
    ensures ParseTime(h + [':'] + m) == Some((hour, minute, 0))
    ensures ParseTime(h + [':'] + (m + [':'] + s)) == Some((hour, minute, second))
  {
    PairSplits(h, m);
    TripleSplits(h, m, s);
  }

  lemma TimeReadsBack(hour: nat, minute: nat, second: Option<nat>)
    requires hour <= U64_MAX && minute <= U64_MAX && SecondOr(second) <= U64_MAX
    ensures ParseTime(TimeText(hour, minute, second)) == Some((hour, minute, SecondOr(second)))
  {
    var h, m, s := Padded(hour, 2), Padded(minute, 2), Padded(SecondOr(second), 2);
    ParseDigits(h);
    ParseDigits(m);
    ParseDigits(s);
    ClockReadsBack(h, m, s, hour, minute, SecondOr(second));
  }

  function SecondOr(second: Option<nat>): nat {
    if second.Some? then second.value else 0
  }

  lemma HalvesReadBack(d: string, t: string, m: Moment)
    requires 'T' !in d && ParseDate(d) == Some(m.date) && ParseTime(t) == Some((m.hour, m.minute, m.second))
    requires IsValid(m.date) && InDay(m)
    ensures DatetimeLocalParts(d + "T" + t) == Some(m)
  {
    SplitOnceAt(d, 'T', t);
  }

  lemma DayReadsBack(days: nat, d: string, t: string, m: Moment)
    requires 'T' !in d && ParseDate(d) == Some(m.date) && ParseTime(t) == Some((m.hour, m.minute, m.second))
    requires DaysFromCivil(m.date) == Some(days) && IsValid(m.date) && InDay(m)
    ensures DatetimeLocalToUnix(d + "T" + t) == Some(Instant(m, days))
  {
    HalvesReadBack(d, t, m);
  }

  lemma DayTextReadsBack(days: nat, hour: nat, minute: nat, second: Option<nat>)
    requires days <= U64_MAX / SECONDS_PER_DAY && hour < 24 && minute < 60 && SecondOr(second) < 60
    ensures CivilFromDays(days).year >= 0 && CivilFromDays(days).month >= 0 && CivilFromDays(days).day >= 0
    ensures DatetimeLocalToUnix(DateText(CivilFromDays(days)) + "T" + TimeText(hour, minute, second)) ==
      Some(Instant(Moment(CivilFromDays(days), hour, minute, SecondOr(second)), days))
  {
    var date := CivilFromDays(days);
    CivilIsPositive(days);
    DateReadsBack(date);
    TimeReadsBack(hour, minute, second);
    ConversionsAreInverse(date, days);
    DayReadsBack(days, DateText(date), TimeText(hour, minute, second), Moment(date, hour, minute, SecondOr(second)));
  }

  /** The day printed for an instant, with a time of day appended, reads back as that time of that same day. */
  lemma UnixDayReadsBack(now: u64, hour: nat, minute: nat, second: Option<nat>)
    requires hour < 24 && minute < 60 && SecondOr(second) < 60
    ensures
      var read := DatetimeLocalToUnix(UnixDay(now) + "T" + TimeText(hour, minute, second));
      && read.Some?
      && read.value / 86400 == now / 86400
      && read.value % 86400 == hour * 3600 + minute * 60 + SecondOr(second)
  {
    var days := now / SECONDS_PER_DAY;
    DayTextReadsBack(days, hour, minute, second);
    assert UnixDay(now) == DateText(CivilFromDays(days));
    InstantSplits(Moment(CivilFromDays(days), hour, minute, SecondOr(second)), days);
  }

  lemma InstantSplits(m: Moment, days: nat)
    requires InDay(m)
    ensures Instant(m, days) / SECONDS_PER_DAY == days
    ensures Instant(m, days) % SECONDS_PER_DAY == m.hour * 3600 + m.minute * 60 + m.second
  {
  }
}
