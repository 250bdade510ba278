/** UTC and local time (muduo/base/TimeZone.cc).

    Local times are written as seconds from the "shifted epoch": the seconds a clock set to local time
    would show, read as if it were UTC. */
module TimeZones {
  import opened Dates

  const kSecondsPerDay := 24 * 60 * 60

  // Date::kJulianDayOf1970_01_01
  const kJulianDayOf1970 := JulianDayNumber(1970, 1, 1)

  datatype DateTime = DateTime(date: YearMonthDay, hour: int, minute: int, second: int)

  predicate IsDateTime(dt: DateTime) {
    IsDate(dt.date) && InEra(dt.date) && 0 <= dt.hour < 24 && 0 <= dt.minute < 60 && 0 <= dt.second < 60
  }

  // ---------------------------------------------------------------------------------------------
  // Seconds and calendar fields
  // ---------------------------------------------------------------------------------------------

  function OfDayAndSeconds(days: int, seconds: int): DateTime {
    DateTime(DateOf(days + kJulianDayOf1970), seconds / 3600, seconds / 60 % 60, seconds % 60)
  }

  /** BreakTime: t % kSecondsPerDay has the sign of t, so a negative remainder borrows a day. */
  method BreakTime(t: int) returns (dt: DateTime)
    ensures dt == Broken(t)
  {
    FloorOfTruncated(t);
    hide DateOf, JulianDayNumber, Quot, Rem;
    var seconds, days := Rem(t, kSecondsPerDay), Quot(t, kSecondsPerDay);
    if seconds < 0 {
      seconds := seconds + kSecondsPerDay;
      days := days - 1;
    }
    HoursOfMinutes(seconds);
    // fillHMS
    var second := seconds % 60;
    var minutes := seconds / 60;
    var minute, hour := minutes % 60, minutes / 60;
    dt := DateTime(DateOf(days + kJulianDayOf1970), hour, minute, second);
  }

  function Broken(t: int): DateTime { OfDayAndSeconds(t / kSecondsPerDay, t % kSecondsPerDay) }

  lemma HoursOfMinutes(seconds: int)
    requires 0 <= seconds < kSecondsPerDay
    ensures seconds / 60 / 60 == seconds / 3600
  {
  }

  // The borrow turns truncation into floor division.
  lemma FloorOfTruncated(t: int)
    ensures var seconds, days := Rem(t, kSecondsPerDay), Quot(t, kSecondsPerDay);
            && -kSecondsPerDay < seconds < kSecondsPerDay
            && t / kSecondsPerDay == (if seconds < 0 then days - 1 else days)
            && t % kSecondsPerDay == (if seconds < 0 then seconds + kSecondsPerDay else seconds)
  {
  }

  lemma FloorDivision(t: int, days: int, seconds: int)
    requires t == days * kSecondsPerDay + seconds && 0 <= seconds < kSecondsPerDay
    ensures t / kSecondsPerDay == days && t % kSecondsPerDay == seconds
  {
  }

  function FromUtcTime(dt: DateTime): int {
    (Number(dt.date) - kJulianDayOf1970) * kSecondsPerDay + (dt.hour * 3600 + dt.minute * 60 + dt.second)
  }

  // Midnight of 1 March -4800, in seconds from the epoch.
  const kFirstSecond := (kFirstDay - kJulianDayOf1970) * kSecondsPerDay

  lemma EpochDay()
    ensures kJulianDayOf1970 == 2440588
  {
  }

  // The seconds of a day and its hour, minute and second.
  lemma ClockOfSeconds(seconds: int)
    requires 0 <= seconds < kSecondsPerDay
    ensures seconds / 3600 * 3600 + seconds / 60 % 60 * 60 + seconds % 60 == seconds
    ensures 0 <= seconds / 3600 < 24 && 0 <= seconds / 60 % 60 < 60 && 0 <= seconds % 60 < 60
  {
  }

  lemma SecondsOfClock(hour: int, minute: int, second: int)
    requires 0 <= hour < 24 && 0 <= minute < 60 && 0 <= second < 60
    ensures var seconds := hour * 3600 + minute * 60 + second;
            && 0 <= seconds < kSecondsPerDay
            && seconds / 3600 == hour && seconds / 60 % 60 == minute && seconds % 60 == second
  {
    var seconds := hour * 3600 + minute * 60 + second;
    assert seconds / 60 == hour * 60 + minute;
  }

  lemma SplitDay(t: int)
    requires t >= kFirstSecond
    ensures t == t / kSecondsPerDay * kSecondsPerDay + t % kSecondsPerDay
    ensures t / kSecondsPerDay + kJulianDayOf1970 >= kFirstDay
  {
    EpochDay();
    hide JulianDayNumber;
  }

  /** Every second from the first on, negative ones included, is that of its calendar fields. */
  lemma FromUtcOfBroken(t: int)
    requires t >= kFirstSecond
    ensures IsDateTime(Broken(t)) && FromUtcTime(Broken(t)) == t
  {
    hide Number, DateOf, IsDate, InEra, JulianDayNumber;
    var days, seconds := t / kSecondsPerDay, t % kSecondsPerDay;
    SplitDay(t);
    NumberOfDate(days + kJulianDayOf1970);
    ClockOfSeconds(seconds);
    assert OfDayAndSeconds(days, seconds) == Broken(t);
    BackTogether(days, seconds);
  }

  lemma BackTogether(days: int, seconds: int)
    requires Number(DateOf(days + kJulianDayOf1970)) == days + kJulianDayOf1970
    requires seconds / 3600 * 3600 + seconds / 60 % 60 * 60 + seconds % 60 == seconds
    ensures FromUtcTime(OfDayAndSeconds(days, seconds)) == days * kSecondsPerDay + seconds
  {
    hide Number, DateOf, JulianDayNumber;
  }

  /** And the fields of a date and time are those of its second. */
  lemma BrokenOfFromUtc(dt: DateTime)
    requires IsDateTime(dt)
    ensures FromUtcTime(dt) >= kFirstSecond && Broken(FromUtcTime(dt)) == dt
  {
    hide Number, DateOf, IsDate, InEra, JulianDayNumber;
    EpochDay();
    DateOfNumber(dt.date);
    SecondsOfClock(dt.hour, dt.minute, dt.second);
    var days, seconds := Number(dt.date) - kJulianDayOf1970, dt.hour * 3600 + dt.minute * 60 + dt.second;
    FloorDivision(FromUtcTime(dt), days, seconds);
  }

  /** What the fields of a second are: its day, counted from 1 January 1970 in the calendar, and its time of
      that day. */
  lemma FieldsLaw(t: int)
    requires t >= kFirstSecond
    ensures var dt := Broken(t);
            && IsDate(dt.date) && Number(dt.date) == Number(YearMonthDay(1970, 1, 1)) + t / 86400
            && 0 <= dt.hour < 24 && 0 <= dt.minute < 60 && 0 <= dt.second < 60
            && dt.hour * 3600 + dt.minute * 60 + dt.second == t % 86400
  {
    SplitDay(t);
    hide Number, DateOf, IsDate, InEra, JulianDayNumber;
    NumberOfDate(t / kSecondsPerDay + kJulianDayOf1970);
    ClockOfSeconds(t % kSecondsPerDay);
    NumberOf1970();
  }

  lemma NumberOf1970()
    ensures Number(YearMonthDay(1970, 1, 1)) == kJulianDayOf1970
  {
  }

  // ---------------------------------------------------------------------------------------------
  // Time zone data
  // ---------------------------------------------------------------------------------------------

  datatype LocalTime = LocalTime(utcOffset: int, isDst: bool, desigIdx: int)

  datatype Transition = Transition(utctime: int, localtime: int, localtimeIdx: int)

  datatype Data = Data(transitions: seq<Transition>, localtimes: seq<LocalTime>)

  /** What addLocalTime and addTransition build, from a file with at least one local time type. */
  ghost predicate WellFormed(z: Data) {
    && z.localtimes != []
    && forall i | 0 <= i < |z.transitions| ::
         && 0 <= z.transitions[i].localtimeIdx < |z.localtimes|
         && z.transitions[i].localtime == z.transitions[i].utctime + z.localtimes[z.transitions[i].localtimeIdx].utcOffset
  }

  /** The vectors are filled one entry after the other; an index no type has makes `at` throw, and the
      file is not loaded. */
  class ZoneFile {
    var transitions: seq<Transition>
    var localtimes: seq<LocalTime>

    constructor ()
      ensures transitions == [] && localtimes == []
    {
      transitions, localtimes := [], [];
    }

    method AddLocalTime(utcOffset: int, isDst: bool, desigIdx: int)
      modifies this`localtimes
      ensures localtimes == old(localtimes) + [LocalTime(utcOffset, isDst, desigIdx)]
    {
      localtimes := localtimes + [LocalTime(utcOffset, isDst, desigIdx)];
    }

    method AddTransition(utcTime: int, localtimeIdx: nat) returns (ok: bool)
      modifies this`transitions
      ensures ok <==> localtimeIdx < |localtimes|
      ensures transitions == if ok then old(transitions) + [Transition(utcTime, utcTime + localtimes[localtimeIdx].utcOffset, localtimeIdx)]
                             else old(transitions)
    {
      if localtimeIdx >= |localtimes| { return false; }
      var lt := localtimes[localtimeIdx];
      transitions := transitions + [Transition(utcTime, utcTime + lt.utcOffset, localtimeIdx)];
      return true;
    }

    // readDataBlock, from the arrays of the file on
    method Load(trans: seq<int>, locals: seq<nat>, types: seq<LocalTime>) returns (ok: bool)
      requires |trans| == |locals| && transitions == [] && localtimes == []
      modifies this
      ensures ok <==> forall i | 0 <= i < |locals| :: locals[i] < |types|
      ensures ok && types != [] ==> WellFormed(Data(transitions, localtimes))
      ensures ok ==> localtimes == types && |transitions| == |trans|
      ensures ok ==> forall i | 0 <= i < |trans| :: transitions[i].utctime == trans[i] && transitions[i].localtimeIdx == locals[i]
    {
      for i := 0 to |types|
        invariant localtimes == types[..i] && transitions == []
      {
        assert types[..i + 1] == types[..i] + [types[i]];
        AddLocalTime(types[i].utcOffset, types[i].isDst, types[i].desigIdx);
      }
      assert types[..|types|] == types;
      for i := 0 to |trans|
        invariant localtimes == types && |transitions| == i
        invariant forall k | 0 <= k < i :: locals[k] < |types| &&
                    transitions[k] == Transition(trans[k], trans[k] + types[locals[k]].utcOffset, locals[k])
      {
        ok := AddTransition(trans[i], locals[i]);
        if !ok { return false; }
      }
      return true;
    }
  }

  // std::upper_bound: the first key behind the given one, of keys in ascending order.
  function UpperBound(keys: seq<int>, key: int): (k: nat)
    ensures k <= |keys| && (forall i | 0 <= i < k :: keys[i] <= key) && (k < |keys| ==> key < keys[k])
  {
    if keys == [] || key < keys[0] then 0
    else
      var k := UpperBound(keys[1..], key);
      assert forall i | 1 <= i < k + 1 :: keys[i] == keys[1..][i - 1];
      k + 1
  }

  // With CompareUtcTime, and with CompareLocalTime.
  function UpperBoundUtc(ts: seq<Transition>, utctime: int): (k: nat)
    ensures k <= |ts| && (forall i | 0 <= i < k :: ts[i].utctime <= utctime) && (k < |ts| ==> utctime < ts[k].utctime)
  {
    var keys := seq(|ts|, i requires 0 <= i < |ts| => ts[i].utctime);
    assert forall i | 0 <= i < |ts| :: keys[i] == ts[i].utctime;
    UpperBound(keys, utctime)
  }

  function UpperBoundLocal(ts: seq<Transition>, localtime: int): (k: nat)
    ensures k <= |ts| && (forall i | 0 <= i < k :: ts[i].localtime <= localtime) && (k < |ts| ==> localtime < ts[k].localtime)
  {
    var keys := seq(|ts|, i requires 0 <= i < |ts| => ts[i].localtime);
    assert forall i | 0 <= i < |ts| :: keys[i] == ts[i].localtime;
    UpperBound(keys, localtime)
  }

  // The offset in force from transition i on, and before the first one, i == -1.
  function OffsetAt(z: Data, i: int): int
    requires WellFormed(z) && -1 <= i < |z.transitions|
  {
    if i == -1 then z.localtimes[0].utcOffset else z.localtimes[z.transitions[i].localtimeIdx].utcOffset
  }

  // findLocalTime(utcTime), as the transition whose local time it returns.
  function FindUtc(z: Data, utctime: int): (i: int)
    requires WellFormed(z)
    ensures -1 <= i < |z.transitions|
  {
    if z.transitions == [] || utctime < z.transitions[0].utctime then -1
    else UpperBoundUtc(z.transitions, utctime) - 1
  }

  // The last second before transition k, on the clock of the transition before it.
  function PriorSecond(z: Data, k: nat): int
    requires WellFormed(z) && 0 < k < |z.transitions|
  {
    z.transitions[k].utctime - 1 + OffsetAt(z, k - 1)
  }

  /** findLocalTime(local, postTransition), once upper_bound has found k.  Looking for a repeated hour of
      the first transition, the source keeps the values it has, and finds transition 0 whatever they are. */
  function Settle(z: Data, localtime: int, k: nat, postTransition: bool): (i: int)
    requires WellFormed(z) && 0 < k <= |z.transitions|
    ensures 0 <= i < |z.transitions|
  {
    if k == |z.transitions| then k - 1
    else if PriorSecond(z, k) < localtime then if postTransition then k else k - 1
    else
      var j := k - 1;
      if j == 0 then 0
      else if localtime <= PriorSecond(z, j) then if postTransition then j else j - 1
      else j
  }

  function FindLocal(z: Data, localtime: int, postTransition: bool): (i: int)
    requires WellFormed(z)
    ensures -1 <= i < |z.transitions|
  {
    if z.transitions == [] || localtime < z.transitions[0].localtime then -1
    else Settle(z, localtime, UpperBoundLocal(z.transitions, localtime), postTransition)
  }

  function LocalSeconds(z: Data, t: int): int
    requires WellFormed(z)
  {
    t + OffsetAt(z, FindUtc(z, t))
  }

  function ToLocalTime(z: Data, t: int): DateTime
    requires WellFormed(z)
  {
    Broken(LocalSeconds(z, t))
  }

  function FromLocalTime(z: Data, local: DateTime, postTransition: bool): int
    requires WellFormed(z)
  {
    FromUtcTime(local) - OffsetAt(z, FindLocal(z, FromUtcTime(local), postTransition))
  }

  // ---------------------------------------------------------------------------------------------
  // From UTC to local time and back
  // ---------------------------------------------------------------------------------------------

  /** Transitions in ascending order (section 3.2 of RFC 8536), any two of them further apart than any two
      offsets differ. */
  ghost predicate Spaced(z: Data)
    requires WellFormed(z)
  {
    forall i, j, p, q | 0 <= i < j < |z.transitions| && -1 <= p < |z.transitions| && -1 <= q < |z.transitions| ::
      z.transitions[j].utctime - z.transitions[i].utctime > OffsetAt(z, p) - OffsetAt(z, q)
  }

  lemma Apart(z: Data, i: nat, j: nat, p: int, q: int)
    requires WellFormed(z) && Spaced(z) && i < j < |z.transitions| && -1 <= p < |z.transitions| && -1 <= q < |z.transitions|
    ensures z.transitions[j].utctime - z.transitions[i].utctime > OffsetAt(z, p) - OffsetAt(z, q)
  {
  }

  // Local time shows this second again behind the transition that follows it.
  predicate RepeatedByNext(z: Data, t: int)
    requires WellFormed(z)
  {
    var i := FindUtc(z, t);
    i + 1 < |z.transitions| && LocalSeconds(z, t) >= z.transitions[i + 1].localtime
  }

  // Local time showed this second already, before the transition in force.
  predicate RepeatedByPrior(z: Data, t: int)
    requires WellFormed(z)
  {
    var i := FindUtc(z, t);
    i >= 1 && LocalSeconds(z, t) <= PriorSecond(z, i)
  }

  // The hours the search does not find: repeated by the first transition, or by the last one.
  predicate Lost(z: Data, t: int)
    requires WellFormed(z)
  {
    RepeatedByNext(z, t) && (FindUtc(z, t) == -1 || FindUtc(z, t) + 2 == |z.transitions|)
  }

  // Where the search ends up, for the local time of a second in the period of transition i.
  function Found(z: Data, t: int, postTransition: bool): int
    requires WellFormed(z)
  {
    var i := FindUtc(z, t);
    if RepeatedByNext(z, t) then if postTransition || Lost(z, t) then i + 1 else i
    else if RepeatedByPrior(z, t) && i + 1 < |z.transitions| && !postTransition then i - 1
    else i
  }

  lemma PeriodOf(z: Data, t: int)
    requires WellFormed(z) && Spaced(z)
    ensures var i := FindUtc(z, t);
            && (i >= 0 ==> z.transitions[i].utctime <= t)
            && (i + 1 < |z.transitions| ==> t < z.transitions[i + 1].utctime)
  {
  }

  // Local times of the transitions are in ascending order, too, so the position of a local time among its
  // neighbours is what upper_bound finds.
  lemma UpperBoundLocalIs(z: Data, localtime: int, k: nat)
    requires WellFormed(z) && Spaced(z) && k <= |z.transitions|
    requires k > 0 ==> z.transitions[k - 1].localtime <= localtime
    requires k < |z.transitions| ==> localtime < z.transitions[k].localtime
    ensures UpperBoundLocal(z.transitions, localtime) == k
  {
    var u := UpperBoundLocal(z.transitions, localtime);
    if u < k - 1 { Apart(z, u, k - 1, u, k - 1); }
  }

  lemma FindLocalAt(z: Data, localtime: int, k: nat, postTransition: bool)
    requires WellFormed(z) && Spaced(z) && k <= |z.transitions|
    requires k > 0 ==> z.transitions[k - 1].localtime <= localtime
    requires k < |z.transitions| ==> localtime < z.transitions[k].localtime
    ensures FindLocal(z, localtime, postTransition) == if k == 0 then -1 else Settle(z, localtime, k, postTransition)
  {
    UpperBoundLocalIs(z, localtime, k);
    hide Spaced, Settle;
  }

  lemma BeforeNext(z: Data, t: int, i: nat, j: nat)
    requires WellFormed(z) && Spaced(z) && i == FindUtc(z, t) && j == i + 1 < |z.transitions|
    ensures LocalSeconds(z, t) <= PriorSecond(z, j)
  {
    PeriodOf(z, t);
    hide *;
    LocalIs(z, t);
    PriorIs(z, i, j);
  }

  lemma BeforeNextButOne(z: Data, t: int, i: int, j: nat, k: nat)
    requires WellFormed(z) && Spaced(z) && i == FindUtc(z, t) && j == i + 1 && k == j + 1 < |z.transitions|
    ensures LocalSeconds(z, t) <= PriorSecond(z, k) && LocalSeconds(z, t) < z.transitions[k].localtime
  {
    PeriodOf(z, t);
    hide *;
    LocalIs(z, t);
    PriorIs(z, j, k);
    Apart(z, j, k, i, j);
    Apart(z, j, k, i, k);
    ShiftedEpoch(z, k);
  }

  lemma LocalIs(z: Data, t: int)
    requires WellFormed(z)
    ensures LocalSeconds(z, t) == t + OffsetAt(z, FindUtc(z, t))
    ensures RepeatedByNext(z, t) <==>
              FindUtc(z, t) + 1 < |z.transitions| && LocalSeconds(z, t) >= z.transitions[FindUtc(z, t) + 1].localtime
  {
    hide FindUtc, OffsetAt;
  }

  lemma PriorIs(z: Data, j: nat, k: nat)
    requires WellFormed(z) && k == j + 1 < |z.transitions|
    ensures PriorSecond(z, k) == z.transitions[k].utctime - 1 + OffsetAt(z, j)
  {
    hide OffsetAt;
  }

  lemma ShiftedEpoch(z: Data, i: nat)
    requires WellFormed(z) && i < |z.transitions|
    ensures z.transitions[i].localtime == z.transitions[i].utctime + OffsetAt(z, i)
  {
  }

  lemma SearchRepeated(z: Data, t: int, postTransition: bool)
    requires WellFormed(z) && Spaced(z) && RepeatedByNext(z, t) && FindUtc(z, t) + 1 < |z.transitions|
    ensures FindLocal(z, LocalSeconds(z, t), postTransition) == Found(z, t, postTransition)
  {
    hide *;
    var i := FindUtc(z, t);
    LocalIs(z, t);
    if i >= 0 { BeforeNext(z, t, i, i + 1); }
    if i + 2 < |z.transitions| { BeforeNextButOne(z, t, i, i + 1, i + 2); }
    FindLocalAt(z, LocalSeconds(z, t), FindUtc(z, t) + 2, postTransition);
    SettlesRepeated(z, LocalSeconds(z, t), FindUtc(z, t), postTransition);
    FoundRepeated(z, t, postTransition);
  }

  lemma SettlesRepeated(z: Data, local: int, i: int, postTransition: bool)
    requires WellFormed(z) && -1 <= i && i + 1 < |z.transitions|
    requires i >= 0 ==> local <= PriorSecond(z, i + 1)
    requires i + 2 < |z.transitions| ==> local <= PriorSecond(z, i + 2)
    ensures Settle(z, local, i + 2, postTransition) ==
            if postTransition || i == -1 || i + 2 == |z.transitions| then i + 1 else i
  {
    hide PriorSecond, WellFormed;
  }

  lemma FoundRepeated(z: Data, t: int, postTransition: bool)
    requires WellFormed(z) && RepeatedByNext(z, t)
    ensures var i := FindUtc(z, t);
            Found(z, t, postTransition) == if postTransition || i == -1 || i + 2 == |z.transitions| then i + 1 else i
  {
    hide FindUtc, RepeatedByNext, WellFormed;
  }

  lemma SearchUnrepeated(z: Data, t: int, postTransition: bool)
    requires WellFormed(z) && Spaced(z) && !RepeatedByNext(z, t)
    ensures FindLocal(z, LocalSeconds(z, t), postTransition) == Found(z, t, postTransition)
  {
    hide *;
    PeriodOf(z, t);
    LocalIs(z, t);
    var i := FindUtc(z, t);
    if i >= 0 { ShiftedEpoch(z, i); }
    if i >= 0 && i + 1 < |z.transitions| { PriorIs(z, i, i + 1); }
    FindLocalAt(z, LocalSeconds(z, t), i + 1, postTransition);
    if i >= 0 { SettlesUnrepeated(z, LocalSeconds(z, t), i, postTransition); }
    FoundUnrepeated(z, t, postTransition);
  }

  lemma SettlesUnrepeated(z: Data, local: int, i: nat, postTransition: bool)
    requires WellFormed(z) && i < |z.transitions|
    requires i + 1 < |z.transitions| ==> local <= PriorSecond(z, i + 1)
    ensures Settle(z, local, i + 1, postTransition) ==
            if i + 1 < |z.transitions| && i >= 1 && local <= PriorSecond(z, i) && !postTransition then i - 1 else i
  {
    hide PriorSecond, WellFormed;
  }

  lemma FoundUnrepeated(z: Data, t: int, postTransition: bool)
    requires WellFormed(z) && !RepeatedByNext(z, t)
    ensures var i := FindUtc(z, t);
            Found(z, t, postTransition) ==
            if i + 1 < |z.transitions| && i >= 1 && LocalSeconds(z, t) <= PriorSecond(z, i) && !postTransition then i - 1 else i
  {
    hide FindUtc, RepeatedByNext, WellFormed, PriorSecond, LocalSeconds;
  }

  lemma NextIsThere(z: Data, t: int)
    requires WellFormed(z) && RepeatedByNext(z, t)
    ensures FindUtc(z, t) + 1 < |z.transitions|
  {
  }

  lemma SearchFinds(z: Data, t: int, postTransition: bool)
    requires WellFormed(z) && Spaced(z)
    ensures FindLocal(z, LocalSeconds(z, t), postTransition) == Found(z, t, postTransition)
  {
    hide *;
    if RepeatedByNext(z, t) {
      NextIsThere(z, t);
      SearchRepeated(z, t, postTransition);
    } else { SearchUnrepeated(z, t, postTransition); }
  }

  // The offset changed where a second is repeated, so only its own transition gives it back.
  lemma OffsetsDiffer(z: Data, t: int, postTransition: bool)
    requires WellFormed(z) && Spaced(z)
    ensures OffsetAt(z, Found(z, t, postTransition)) == OffsetAt(z, FindUtc(z, t))
            <==> Found(z, t, postTransition) == FindUtc(z, t)
  {
    PeriodOf(z, t);
    hide Spaced, FindUtc;
  }

  /** A second goes to local time and back, with the given flag, exactly if the search ends in its own
      period. */
  lemma RecoveredWithFlag(z: Data, t: int, postTransition: bool)
    requires WellFormed(z) && Spaced(z) && LocalSeconds(z, t) >= kFirstSecond
    ensures FromLocalTime(z, ToLocalTime(z, t), postTransition) == t <==> Found(z, t, postTransition) == FindUtc(z, t)
  {
    FromUtcOfBroken(LocalSeconds(z, t));
    SearchFinds(z, t, postTransition);
    OffsetsDiffer(z, t, postTransition);
    hide Spaced, Broken, FromUtcTime, Found, FindLocal, FindUtc;
  }

  /** A second is recovered from its local time by at least one of the flags exactly if it is not in an
      hour repeated by the first or the last transition. */
  lemma RecoveredIffNotLost(z: Data, t: int)
    requires WellFormed(z) && Spaced(z) && LocalSeconds(z, t) >= kFirstSecond
    ensures (exists p :: FromLocalTime(z, ToLocalTime(z, t), p) == t) <==> !Lost(z, t)
  {
    RecoveredWithFlag(z, t, false);
    RecoveredWithFlag(z, t, true);
    hide FromLocalTime, ToLocalTime, FindUtc, LocalSeconds, Spaced;
    if !Lost(z, t) {
      assert FromLocalTime(z, ToLocalTime(z, t), !RepeatedByNext(z, t)) == t;
    }
  }

  /** Both flags recover a second whose local time is shown only once; of one shown twice, the flag tells
      the two apart, if neither the first nor the last transition is involved. */
  lemma FlagsTellRepeatedApart(z: Data, t: int)
    requires WellFormed(z) && Spaced(z) && LocalSeconds(z, t) >= kFirstSecond
    ensures !RepeatedByNext(z, t) && !RepeatedByPrior(z, t) ==>
              forall p :: FromLocalTime(z, ToLocalTime(z, t), p) == t
    ensures RepeatedByNext(z, t) && !Lost(z, t) ==>
              forall p :: FromLocalTime(z, ToLocalTime(z, t), p) == t <==> !p
    ensures RepeatedByPrior(z, t) && !RepeatedByNext(z, t) && FindUtc(z, t) + 1 < |z.transitions| ==>
              forall p :: FromLocalTime(z, ToLocalTime(z, t), p) == t <==> p
  {
    RecoveredWithFlag(z, t, false);
    RecoveredWithFlag(z, t, true);
    hide FromLocalTime, ToLocalTime, FindUtc, LocalSeconds, Spaced;
  }

  /** A local time skipped by a transition is no second's; the flag says which clock to read it on. */
  lemma SkippedLocalTime(z: Data, k: nat, localtime: int, t: int)
    requires WellFormed(z) && Spaced(z) && 0 < k < |z.transitions|
    requires PriorSecond(z, k) < localtime < z.transitions[k].localtime
    ensures LocalSeconds(z, t) != localtime
    ensures FindLocal(z, localtime, false) == k - 1 && FindLocal(z, localtime, true) == k
  {
    NotInGap(z, k, localtime, t);
    Apart(z, k - 1, k, k - 1, k);
    hide Spaced, FindLocal;
    FindLocalAt(z, localtime, k, false);
    FindLocalAt(z, localtime, k, true);
  }

  lemma NotInGap(z: Data, k: nat, localtime: int, t: int)
    requires WellFormed(z) && Spaced(z) && 0 < k < |z.transitions|
    requires PriorSecond(z, k) < localtime < z.transitions[k].localtime
    ensures LocalSeconds(z, t) != localtime
  {
    var i := FindUtc(z, t);
    PeriodOf(z, t);
    if i + 1 < k { Apart(z, i + 1, k, i, k - 1); }
    if i > k { Apart(z, k, i, k, i); }
    hide Spaced, FindUtc;
  }

  // ---------------------------------------------------------------------------------------------
  // Which offset is in force
  // ---------------------------------------------------------------------------------------------

  // Section 3.2 of RFC 8536: transition times are in strictly ascending order.
  ghost predicate Ordered(z: Data) {
    forall i, j | 0 <= i < j < |z.transitions| :: z.transitions[i].utctime < z.transitions[j].utctime
  }

  /** The local time of a second is shown with the offset of the last transition not after it; before the
      first transition, and in a zone without any, with that of the first local time type. */
  lemma LocalTimeLaw(z: Data, t: int)
    requires WellFormed(z) && Ordered(z)
    ensures z.transitions == [] || t < z.transitions[0].utctime ==> ToLocalTime(z, t) == Broken(t + z.localtimes[0].utcOffset)
    ensures forall i | 0 <= i < |z.transitions| && z.transitions[i].utctime <= t
                       && (i + 1 < |z.transitions| ==> t < z.transitions[i + 1].utctime) ::
              ToLocalTime(z, t) == Broken(t + z.localtimes[z.transitions[i].localtimeIdx].utcOffset)
  {
    hide Broken;
    forall i | 0 <= i < |z.transitions| && z.transitions[i].utctime <= t
               && (i + 1 < |z.transitions| ==> t < z.transitions[i + 1].utctime)
      ensures ToLocalTime(z, t) == Broken(t + z.localtimes[z.transitions[i].localtimeIdx].utcOffset)
    {
      PeriodIs(z, t, i);
    }
  }

  lemma PeriodIs(z: Data, t: int, i: nat)
    requires WellFormed(z) && Ordered(z) && i < |z.transitions| && z.transitions[i].utctime <= t
    requires i + 1 < |z.transitions| ==> t < z.transitions[i + 1].utctime
    ensures FindUtc(z, t) == i
  {
    hide OffsetAt;
  }

  /** A local time before the clock first jumps, and every one in a zone without transitions, is read with
      the first local time type; one from the last transition on with the last. */
  lemma FromLocalTimeAtTheEnds(z: Data, local: DateTime, postTransition: bool)
    requires WellFormed(z)
    ensures var seconds, n := FromUtcTime(local), |z.transitions|;
            && (n == 0 || seconds < z.transitions[0].localtime ==>
                  FromLocalTime(z, local, postTransition) == seconds - z.localtimes[0].utcOffset)
            && (n > 0 && (forall i | 0 <= i < n :: z.transitions[i].localtime <= seconds) ==>
                  FromLocalTime(z, local, postTransition) == seconds - z.localtimes[z.transitions[n - 1].localtimeIdx].utcOffset)
  {
    hide FromUtcTime;
  }
}
