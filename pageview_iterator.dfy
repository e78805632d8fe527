/**
 * The hourly page-view iterator: for each hour of a range it probes the
 * Wikimedia dump server for that hour's pagecounts file, and tallies, per
 * language, the views of each local page the file mentions.
 */
module PageView {
  import opened Outcomes
  import opened JavaText
  import opened DumpCalendar

  datatype Language = Language(langCode: string)

  datatype Title = Title(text: string, lang: Language)

  /** URLDecoder.decode(s, "UTF-8"); `None` where it throws IllegalArgumentException. */
  type UrlDecoder = string -> Option<string>

  /** LocalPageDao.getIdByTitle; `None` where it throws DaoException. */
  datatype LocalPageDao = LocalPageDao(idByTitle: Title -> Option<int>)

  /**
   * The dump server as the iterator sees it: `ping(url)` is a HEAD request
   * answered with a status of 200 to 399, `download(folder, file)` the lines
   * of the fetched and unzipped file (`None` where the download fails).
   */
  datatype DumpServer = DumpServer(ping: string -> bool, download: (string, string) -> Option<seq<string>>)

  /** One language's view counts (page id to views) for the hour [start, end). */
  datatype PageViewDataStruct = PageViewDataStruct(lang: Language, start: int, end: int, counts: map<int, int>)

  datatype IteratorError =
    | BeforeFirstDump  // WikiBrainException from the range constructors
    | NoSuchElement    // next() past the end of the range

  /** What one call of getPageViewData ends with. */
  datatype HourOutcome =
    | NoMoreHours                                  // returns null
    | MissingDump(hourStart: int)                  // throws: no dump file for the hour
    | Fetched(data: seq<PageViewDataStruct>)       // one struct per language

  const BaseUrl: string := "http://dumps.wikimedia.org/other/pagecounts-raw/"

  /** Integer.toString of a number, with a "0" in front when it is below 10. */
  function TwoDigIntStr(time: int): string
  {
    if time < 10 then "0" + IntToString(time) else IntToString(time)
  }

  /** Numbers of 0 to 99 come out as exactly two digits that parse back to the number. */
  lemma TwoDigIntStrRoundTrip(time: int)
    requires 0 <= time <= 99
    ensures |TwoDigIntStr(time)| == 2
    ensures TwoDigIntStr(time)[0] == '0' <==> time < 10
    ensures ParseInt(TwoDigIntStr(time)) == Some(time)
  {
    var s := TwoDigIntStr(time);
    if time >= 10 {
      NatToStringNoLeadingZero(time);
    }
    if time < 10 {
      assert s == "0" + NatToString(time);
      assert IsDigit(s[0]) && s[1..] == NatToString(time);
      LeadingZeroValue(NatToString(time));
      DigitsOfNat(time);
    } else {
      NatToStringWidth(time);
      ParseIntOfIntToString(time);
    }
  }

  /** The year's folder on the dump server. */
  function HomeFolder(c: CivilTime): string
  {
    var year := IntToString(c.year);
    BaseUrl + year + "/" + year + "-" + TwoDigIntStr(c.month) + "/"
  }

  /** pagecounts-yyyyMMdd-HHmmss.gz for the hour `c` at the given minute and second. */
  function DumpFileName(c: CivilTime, minutes: int, seconds: int): string
  {
    "pagecounts-" + IntToString(c.year) + TwoDigIntStr(c.month) + TwoDigIntStr(c.day) + "-"
      + TwoDigIntStr(c.hour) + TwoDigIntStr(minutes) + TwoDigIntStr(seconds) + ".gz"
  }

  /** The hours whose file names the probe builds: four-digit years, valid fields. */
  predicate NameableHour(c: CivilTime, minutes: int, seconds: int)
  {
    1000 <= c.year <= 9999 && ValidCivil(c) && 0 <= minutes < 60 && 0 <= seconds < 60
  }

  /** Two concatenations with equally long first parts are equal only part by part. */
  lemma AppendCancel(a: string, b: string, a': string, b': string)
    requires |a| == |a'| && a + b == a' + b'
    ensures a == a' && b == b'
  {
    assert a == (a + b)[..|a|] && a' == (a' + b')[..|a'|];
    assert b == (a + b)[|a|..] && b' == (a' + b')[|a'|..];
  }

  /** Two-digit strings of numbers of 0 to 99 tell the numbers apart. */
  lemma TwoDigIntStrInjective(t: int, t': int)
    requires 0 <= t <= 99 && 0 <= t' <= 99 && TwoDigIntStr(t) == TwoDigIntStr(t')
    ensures t == t'
  {
    TwoDigIntStrRoundTrip(t);
    TwoDigIntStrRoundTrip(t');
  }

  /** A file name of a nameable hour has 29 characters. */
  lemma DumpFileNameLength(c: CivilTime, minutes: int, seconds: int)
    requires NameableHour(c, minutes, seconds)
    ensures |DumpFileName(c, minutes, seconds)| == 29
  {
    NatToStringWidth(c.year);
    TwoDigIntStrRoundTrip(c.month);
    TwoDigIntStrRoundTrip(c.day);
    TwoDigIntStrRoundTrip(c.hour);
    TwoDigIntStrRoundTrip(minutes);
    TwoDigIntStrRoundTrip(seconds);
  }

  /** Two file names whose fields have the same widths agree field by field. */
  lemma NameFieldsAgree(y: string, mo: string, d: string, h: string, mi: string, se: string,
                        y': string, mo': string, d': string, h': string, mi': string, se': string)
    requires |y| == |y'| && |mo| == |mo'| && |d| == |d'| && |h| == |h'| && |mi| == |mi'| && |se| == |se'|
    requires "pagecounts-" + y + mo + d + "-" + h + mi + se + ".gz"
          == "pagecounts-" + y' + mo' + d' + "-" + h' + mi' + se' + ".gz"
    ensures y == y' && mo == mo' && d == d' && h == h' && mi == mi' && se == se'
  {
    var p1, p1' := "pagecounts-" + y, "pagecounts-" + y';
    var p2, p2' := p1 + mo, p1' + mo';
    var p3, p3' := p2 + d, p2' + d';
    var p4, p4' := p3 + "-", p3' + "-";
    var p5, p5' := p4 + h, p4' + h';
    var p6, p6' := p5 + mi, p5' + mi';
    AppendCancel(p6 + se, ".gz", p6' + se', ".gz");
    AppendCancel(p6, se, p6', se');
    AppendCancel(p5, mi, p5', mi');
    AppendCancel(p4, h, p4', h');
    AppendCancel(p3, "-", p3', "-");
    AppendCancel(p2, d, p2', d');
    AppendCancel(p1, mo, p1', mo');
    AppendCancel("pagecounts-", y, "pagecounts-", y');
  }

  /** Distinct hours, minutes or seconds never share a dump file name. */
  lemma DumpFileNameInjective(c: CivilTime, m: int, s: int, c': CivilTime, m': int, s': int)
    requires NameableHour(c, m, s) && NameableHour(c', m', s')
    requires DumpFileName(c, m, s) == DumpFileName(c', m', s')
    ensures c == c' && m == m' && s == s'
  {
    NatToStringWidth(c.year);
    NatToStringWidth(c'.year);
    TwoDigIntStrRoundTrip(c.month);
    TwoDigIntStrRoundTrip(c'.month);
    TwoDigIntStrRoundTrip(c.day);
    TwoDigIntStrRoundTrip(c'.day);
    TwoDigIntStrRoundTrip(c.hour);
    TwoDigIntStrRoundTrip(c'.hour);
    TwoDigIntStrRoundTrip(m);
    TwoDigIntStrRoundTrip(m');
    TwoDigIntStrRoundTrip(s);
    TwoDigIntStrRoundTrip(s');
    NameFieldsAgree(IntToString(c.year), TwoDigIntStr(c.month), TwoDigIntStr(c.day),
                    TwoDigIntStr(c.hour), TwoDigIntStr(m), TwoDigIntStr(s),
                    IntToString(c'.year), TwoDigIntStr(c'.month), TwoDigIntStr(c'.day),
                    TwoDigIntStr(c'.hour), TwoDigIntStr(m'), TwoDigIntStr(s'));
    ParseIntOfIntToString(c.year);
    ParseIntOfIntToString(c'.year);
  }

  /** The URL the probe pings for the given minute and second of hour `c`. */
  function DumpUrl(c: CivilTime, minutes: int, seconds: int): string
  {
    HomeFolder(c) + DumpFileName(c, minutes, seconds)
  }

  /** Each minute and second of each hour is probed under a URL of its own. */
  lemma DumpUrlInjective(c: CivilTime, m: int, s: int, c': CivilTime, m': int, s': int)
    requires NameableHour(c, m, s) && NameableHour(c', m', s')
    requires DumpUrl(c, m, s) == DumpUrl(c', m', s')
    ensures c == c' && m == m' && s == s'
  {
    DumpFileNameLength(c, m, s);
    DumpFileNameLength(c', m', s');
    var name, name' := DumpFileName(c, m, s), DumpFileName(c', m', s');
    var url := DumpUrl(c, m, s);
    assert name == url[|url| - 29..];
    assert name' == url[|url| - 29..];
    DumpFileNameInjective(c, m, s, c', m', s');
  }

  /**
   * The inner probe of one minute: the first second, from `seconds` on,
   * whose URL answers the ping decides the minute, by what its download
   * yields; no answer at all yields `None`.
   */
  function ProbeSeconds(c: CivilTime, server: DumpServer, minutes: int, seconds: nat): Option<seq<string>>
    decreases 60 - seconds
  {
    if seconds >= 60 then None
    else if server.ping(DumpUrl(c, minutes, seconds)) then
      server.download(HomeFolder(c), DumpFileName(c, minutes, seconds))
    else ProbeSeconds(c, server, minutes, seconds + 1)
  }

  /** The outer probe: minutes from `minutes` on, until one yields a file. */
  function ProbeFrom(c: CivilTime, server: DumpServer, minutes: nat): Option<seq<string>>
    decreases 60 - minutes
  {
    if minutes >= 60 then None
    else
      match ProbeSeconds(c, server, minutes, 0)
      case Some(lines) => Some(lines)
      case None => ProbeFrom(c, server, minutes + 1)
  }

  /** A minute's probe that yields a file yields one the server answered for and served. */
  lemma {:induction false} ProbeSecondsServed(c: CivilTime, server: DumpServer, minutes: int, seconds: nat)
    requires ProbeSeconds(c, server, minutes, seconds).Some?
    ensures exists s | seconds <= s < 60 ::
              && server.ping(DumpUrl(c, minutes, s))
              && server.download(HomeFolder(c), DumpFileName(c, minutes, s)) == ProbeSeconds(c, server, minutes, seconds)
    decreases 60 - seconds
  {
    if !server.ping(DumpUrl(c, minutes, seconds)) {
      ProbeSecondsServed(c, server, minutes, seconds + 1);
    }
  }

  /** A file the probe finds was answered for and served under some minute and second of the hour. */
  lemma {:induction false} ProbeServed(c: CivilTime, server: DumpServer, minutes: nat)
    requires ProbeFrom(c, server, minutes).Some?
    ensures exists m, s | minutes <= m < 60 && 0 <= s < 60 ::
              && server.ping(DumpUrl(c, m, s))
              && server.download(HomeFolder(c), DumpFileName(c, m, s)) == ProbeFrom(c, server, minutes)
    decreases 60 - minutes
  {
    if ProbeSeconds(c, server, minutes, 0).Some? {
      ProbeSecondsServed(c, server, minutes, 0);
    } else {
      ProbeServed(c, server, minutes + 1);
    }
  }

  /** The server answers the ping for the given minute and second of hour `c`. */
  predicate Answers(server: DumpServer, c: CivilTime, minutes: int, seconds: int)
  {
    server.ping(DumpUrl(c, minutes, seconds))
  }

  /** Every file of hour `c` the server answers for, it also serves. */
  predicate ServesWhatItAnswers(server: DumpServer, c: CivilTime)
  {
    forall m, s | 0 <= m < 60 && 0 <= s < 60 && Answers(server, c, m, s) ::
      server.download(HomeFolder(c), DumpFileName(c, m, s)).Some?
  }

  /** With such a server, a minute finds nothing iff no second of it answers. */
  lemma {:induction false} ProbeSecondsFinds(c: CivilTime, server: DumpServer, minutes: int, seconds: nat)
    requires 0 <= minutes < 60 && ServesWhatItAnswers(server, c)
    ensures ProbeSeconds(c, server, minutes, seconds).None? <==>
      forall s | seconds <= s < 60 :: !Answers(server, c, minutes, s)
    decreases 60 - seconds
  {
    if seconds >= 60 {
    } else if Answers(server, c, minutes, seconds) {
      assert server.download(HomeFolder(c), DumpFileName(c, minutes, seconds)).Some?;
      assert ProbeSeconds(c, server, minutes, seconds).Some?;
      assert !forall s | seconds <= s < 60 :: !Answers(server, c, minutes, s) by {
        assert seconds <= seconds < 60;
      }
    } else {
      ProbeSecondsFinds(c, server, minutes, seconds + 1);
      assert ProbeSeconds(c, server, minutes, seconds) == ProbeSeconds(c, server, minutes, seconds + 1);
      assert (forall s | seconds <= s < 60 :: !Answers(server, c, minutes, s))
          <==> (forall s | seconds + 1 <= s < 60 :: !Answers(server, c, minutes, s));
    }
  }

  /** With such a server, the probe finds nothing iff no URL of the hour answers. */
  lemma {:induction false} ProbeFinds(c: CivilTime, server: DumpServer, minutes: nat)
    requires ServesWhatItAnswers(server, c)
    ensures ProbeFrom(c, server, minutes).None? <==>
      forall m, s | minutes <= m < 60 && 0 <= s < 60 :: !Answers(server, c, m, s)
    decreases 60 - minutes
  {
    if minutes < 60 {
      ProbeSecondsFinds(c, server, minutes, 0);
      ProbeFinds(c, server, minutes + 1);
      if ProbeFrom(c, server, minutes).None? {
        forall m, s | minutes <= m < 60 && 0 <= s < 60
          ensures !Answers(server, c, m, s)
        {
          if m == minutes {
            assert !Answers(server, c, minutes, s);
          } else {
            assert minutes + 1 <= m;
          }
        }
      } else if ProbeSeconds(c, server, minutes, 0).Some? {
        var s :| 0 <= s < 60 && Answers(server, c, minutes, s);
        assert minutes <= minutes < 60;
      } else {
        var m, s :| minutes + 1 <= m < 60 && 0 <= s < 60 && Answers(server, c, m, s);
        assert minutes <= m;
      }
    }
  }

  /**
   * The page id and view count one line of a dump contributes for `lang`:
   * the line splits on spaces into at least three columns, the first is the
   * language code, the second a URL-encoded title that decodes and for which
   * getIdByTitle does not throw (the id it returns is taken as it is), and
   * the third an int.  Any other line contributes nothing.
   */
  function LineEntry(line: string, lang: Language, decode: UrlDecoder, dao: LocalPageDao): (r: Option<(int, int)>)
    ensures r.Some? ==> IsInt32(r.value.1)
  {
    var cols := Split(line);
    if |cols| < 3 || cols[0] != lang.langCode then None
    else
      match decode(cols[1])
      case None => None
      case Some(title) =>
        match dao.idByTitle(Title(title, lang))
        case None => None
        case Some(pageId) =>
          match ParseInt(cols[2])
          case None => None
          case Some(views) => Some((pageId, views))
  }

  /** How a line is read: the page id and views it contributes, if any. */
  type LineReader = string -> Option<(int, int)>

  /** The reader of the dump lines of `lang`. */
  function DumpLineReader(lang: Language, decode: UrlDecoder, dao: LocalPageDao): LineReader
  {
    line => LineEntry(line, lang, decode, dao)
  }

  /** A reader whose view counts are all ints. */
  ghost predicate ReadsInts(reader: LineReader)
  {
    forall line :: reader(line).Some? ==> IsInt32(reader(line).value.1)
  }

  /**
   * The counts after the lines in order: a line's views are added to its
   * page's count, or start it, the sum wrapping around as a Java int does.
   */
  function Tally(lines: seq<string>, reader: LineReader): map<int, int>
  {
    if lines == [] then map[]
    else AdjustOrPut(Tally(lines[..|lines| - 1], reader), reader(lines[|lines| - 1]))
  }

  /** TIntIntMap.adjustOrPutValue(pageId, views, views) for a line's entry, if it has one. */
  function AdjustOrPut(counts: map<int, int>, entry: Option<(int, int)>): (r: map<int, int>)
    ensures entry.None? ==> r == counts
    ensures entry.Some? ==> r.Keys == counts.Keys + {entry.value.0}
    ensures entry.Some? ==> forall id | id in counts && id != entry.value.0 :: r[id] == counts[id]
    ensures entry.Some? && IsInt32(entry.value.1) ==> IsInt32(r[entry.value.0])
  {
    match entry
    case None => counts
    case Some((pageId, views)) =>
      counts[pageId := if pageId in counts then Wrap32(counts[pageId] + views) else views]
  }

  /** Does line `line` contribute views to page `pageId`? */
  predicate Mentions(line: string, pageId: int, reader: LineReader)
  {
    reader(line).Some? && reader(line).value.0 == pageId
  }

  /** The exact (unbounded) number of views the lines give page `pageId`. */
  function ViewsFor(lines: seq<string>, pageId: int, reader: LineReader): int
  {
    if lines == [] then 0
    else
      var line := lines[|lines| - 1];
      ViewsFor(lines[..|lines| - 1], pageId, reader) +
        (if Mentions(line, pageId, reader) then reader(line).value.1 else 0)
  }

  /** The tally of one more line adds that line's entry. */
  lemma TallyStep(lines: seq<string>, i: int, reader: LineReader)
    requires 0 <= i < |lines|
    ensures Tally(lines[..i + 1], reader) == AdjustOrPut(Tally(lines[..i], reader), reader(lines[i]))
  {
    assert lines[..i + 1][..i] == lines[..i];
  }

  /** A page has a count iff some line mentions it. */
  lemma {:induction false} TallyKeys(lines: seq<string>, pageId: int, reader: LineReader)
    ensures pageId in Tally(lines, reader) <==> exists i | 0 <= i < |lines| :: Mentions(lines[i], pageId, reader)
  {
    if lines != [] {
      var init := lines[..|lines| - 1];
      TallyKeys(init, pageId, reader);
      if Mentions(lines[|lines| - 1], pageId, reader) {
        assert Mentions(lines[|lines| - 1], pageId, reader);
      } else {
        forall i | 0 <= i < |lines| && Mentions(lines[i], pageId, reader)
          ensures exists j | 0 <= j < |init| :: Mentions(init[j], pageId, reader)
        {
          assert i < |init| && init[i] == lines[i];
        }
      }
      forall i | 0 <= i < |init| && Mentions(init[i], pageId, reader)
        ensures exists j | 0 <= j < |lines| :: Mentions(lines[j], pageId, reader)
      {
        assert lines[i] == init[i];
      }
    }
  }

  /**
   * A page's count is the sum of its views over all lines, reduced to the
   * int range; a page without a count has no views.
   */
  lemma {:induction false} TallyIsWrappedSum(lines: seq<string>, pageId: int, reader: LineReader)
    requires ReadsInts(reader)
    ensures var t := Tally(lines, reader);
      && (pageId in t ==> t[pageId] == Wrap32(ViewsFor(lines, pageId, reader)))
      && (pageId !in t ==> ViewsFor(lines, pageId, reader) == 0)
  {
    if lines != [] {
      var init := lines[..|lines| - 1];
      var line := lines[|lines| - 1];
      TallyIsWrappedSum(init, pageId, reader);
      if Mentions(line, pageId, reader) {
        Wrap32Add(ViewsFor(init, pageId, reader), reader(line).value.1);
      }
    }
  }

  /**
   * The counts parsed from a dump for `lang`: exactly the pages some line
   * names, each with its views summed over the lines as Java ints.
   */
  lemma DumpCountsAreWrappedSums(lines: seq<string>, pageId: int, lang: Language, decode: UrlDecoder, dao: LocalPageDao)
    ensures var reader := DumpLineReader(lang, decode, dao);
      var counts := Tally(lines, reader);
      && (pageId in counts <==> exists i | 0 <= i < |lines| :: Mentions(lines[i], pageId, reader))
      && (pageId in counts ==> counts[pageId] == Wrap32(ViewsFor(lines, pageId, reader)))
  {
    var reader := DumpLineReader(lang, decode, dao);
    assert ReadsInts(reader);
    TallyKeys(lines, pageId, reader);
    TallyIsWrappedSum(lines, pageId, reader);
  }

  /** The number of next() calls a range [current, end) allows. */
  function HoursLeft(current: int, end: int): nat
    decreases end - current
  {
    if current >= end then 0 else 1 + HoursLeft(current + MillisPerHour, end)
  }

  /** The range yields one element per started hour: ceil((end - current) / 1 hour). */
  lemma {:induction false} HoursLeftIsCeiling(current: int, end: int)
    requires current < end
    ensures HoursLeft(current, end) == (end - current + MillisPerHour - 1) / MillisPerHour
    decreases end - current
  {
    if current + MillisPerHour < end {
      HoursLeftIsCeiling(current + MillisPerHour, end);
    }
  }

  class PageViewIterator {
    var currentDate: int
    var endDate: int
    const langs: seq<Language>
    var nextData: Option<seq<PageViewDataStruct>>
    const localPageDao: LocalPageDao

    /** The state both range constructors set up once the start passes their check. */
    constructor Init(langs: seq<Language>, startDate: int, endDate: int, localPageDao: LocalPageDao)
      ensures this.langs == langs && currentDate == startDate && this.endDate == endDate
      ensures this.localPageDao == localPageDao && nextData == None
    {
      this.langs := langs;
      this.currentDate := startDate;
      this.localPageDao := localPageDao;
      this.endDate := endDate;
      this.nextData := None;
    }

    /** The iterator over [startDate, endDate) for a set of languages; no dumps exist before the first one. */
    static method Open(langs: seq<Language>, startDate: int, endDate: int, localPageDao: LocalPageDao)
      returns (r: Result<PageViewIterator, IteratorError>)
      ensures r.Failure? <==> startDate < FirstDumpMillis
      ensures r.Failure? ==> r.error == BeforeFirstDump
      ensures r.Success? ==> fresh(r.value) && r.value.langs == langs && r.value.currentDate == startDate
      ensures r.Success? ==> r.value.endDate == endDate && r.value.localPageDao == localPageDao && r.value.nextData == None
    {
      if startDate < FirstDumpMillis {
        return Failure(BeforeFirstDump);
      }
      var it := new PageViewIterator.Init(langs, startDate, endDate, localPageDao);
      return Success(it);
    }

    /** The same for one language. */
    static method OpenLanguage(lang: Language, startDate: int, endDate: int, localPageDao: LocalPageDao)
      returns (r: Result<PageViewIterator, IteratorError>)
      ensures r.Failure? <==> startDate < FirstDumpMillis
      ensures r.Failure? ==> r.error == BeforeFirstDump
      ensures r.Success? ==> fresh(r.value) && r.value.langs == [lang] && r.value.currentDate == startDate
      ensures r.Success? ==> r.value.endDate == endDate && r.value.localPageDao == localPageDao && r.value.nextData == None
    {
      if startDate < FirstDumpMillis {
        return Failure(BeforeFirstDump);
      }
      var it := new PageViewIterator.Init([lang], startDate, endDate, localPageDao);
      return Success(it);
    }

    /** The iterator over the single hour starting at currentDate; this one checks no date. */
    constructor ForHour(langs: seq<Language>, currentDate: int, localPageDao: LocalPageDao)
      ensures this.langs == langs && this.currentDate == currentDate
      ensures endDate == currentDate + MillisPerHour
      ensures this.localPageDao == localPageDao && nextData == None
      ensures HoursLeft(this.currentDate, endDate) == 1
    {
      this.langs := langs;
      this.currentDate := currentDate;
      this.endDate := currentDate + MillisPerHour;
      this.localPageDao := localPageDao;
      this.nextData := None;
    }

    /** Some hour of the range is still to come. */
    predicate HasNext()
      reads this
      ensures HasNext() <==> HoursLeft(currentDate, endDate) > 0
    {
      currentDate < endDate
    }

    /** The view counts of the lines of one dump file for `lang`. */
    method ParsePageViewData(lang: Language, lines: seq<string>, decode: UrlDecoder) returns (data: map<int, int>)
      ensures data == Tally(lines, DumpLineReader(lang, decode, localPageDao))
    {
      data := map[];
      var i := 0;
      while i < |lines|
        invariant 0 <= i <= |lines|
        invariant data == Tally(lines[..i], DumpLineReader(lang, decode, localPageDao))
      {
        TallyStep(lines, i, DumpLineReader(lang, decode, localPageDao));
        data := ParseLine(lang, lines[i], decode, data);
        i := i + 1;
      }
      assert lines[..i] == lines;
    }

    /** One pass of the parsing loop: the line's views, if it has any, go into `data`. */
    method ParseLine(lang: Language, curLine: string, decode: UrlDecoder, data: map<int, int>) returns (data': map<int, int>)
      ensures data' == AdjustOrPut(data, LineEntry(curLine, lang, decode, localPageDao))
    {
      data' := data;
      var cols := Split(curLine);
      if |cols| < 3 {
        return;
      }
      if cols[0] == lang.langCode {
        var title := decode(cols[1]);
        if title.None? {
          return;
        }
        var pageId := localPageDao.idByTitle(Title(title.value, lang));
        if pageId.None? {
          return;
        }
        var numPageViews := ParseInt(cols[2]);
        if numPageViews.None? {
          return;
        }
        var id := pageId.value;
        data' := data[id := if id in data then Wrap32(data[id] + numPageViews.value) else numPageViews.value];
      }
    }

    /** The minute-by-minute, second-by-second search for the dump file of hour `c`. */
    static method FindDumpFile(c: CivilTime, server: DumpServer) returns (file: Option<seq<string>>)
      ensures file == ProbeFrom(c, server, 0)
    {
      var homeFolder := HomeFolder(c);
      file := None;
      var minutes := 0;
      while file.None? && minutes < 60
        invariant 0 <= minutes <= 60
        invariant file.None? ==> ProbeFrom(c, server, 0) == ProbeFrom(c, server, minutes)
        invariant file.Some? ==> file == ProbeFrom(c, server, 0)
        decreases 60 - minutes
      {
        var seconds := 0;
        while seconds < 60
          invariant 0 <= seconds <= 60
          invariant file.None?
          invariant ProbeSeconds(c, server, minutes, 0) == ProbeSeconds(c, server, minutes, seconds)
        {
          var f := DumpFileName(c, minutes, seconds);
          if server.ping(homeFolder + f) {
            file := server.download(homeFolder, f);
            break;
          }
          seconds := seconds + 1;
        }
        assert file == ProbeSeconds(c, server, minutes, 0);
        minutes := minutes + 1;
      }
    }

    /** The structs one hour's dump yields: one per language, in order, covering [start, start + 1 hour). */
    function HourStructs(lines: seq<string>, start: int, decode: UrlDecoder): (r: seq<PageViewDataStruct>)
      ensures |r| == |langs|
      ensures forall i | 0 <= i < |r| ::
                r[i].lang == langs[i] && r[i].start == start && r[i].end - r[i].start == MillisPerHour
    {
      seq(|langs|, i requires 0 <= i < |langs| =>
        PageViewDataStruct(langs[i], start, start + MillisPerHour, Tally(lines, DumpLineReader(langs[i], decode, localPageDao))))
    }

    /** The data of the hour starting at `start`, if its dump can be found. */
    function HourData(start: int, server: DumpServer, decode: UrlDecoder): Option<seq<PageViewDataStruct>>
    {
      match ProbeFrom(CivilOf(start), server, 0)
      case None => None
      case Some(lines) => Some(HourStructs(lines, start, decode))
    }

    /**
     * getPageViewData: nothing once the range is done; otherwise the current
     * hour moves on by one hour, whether or not its dump is found.
     */
    method GetPageViewData(server: DumpServer, decode: UrlDecoder) returns (r: HourOutcome)
      modifies this
      ensures endDate == old(endDate) && nextData == old(nextData)
      ensures !old(HasNext()) ==> r == NoMoreHours && currentDate == old(currentDate)
      ensures old(HasNext()) ==> currentDate == old(currentDate) + MillisPerHour
      ensures old(HasNext()) ==> r == match HourData(old(currentDate), server, decode)
        case None => MissingDump(old(currentDate))
        case Some(data) => Fetched(data)
    {
      if currentDate >= endDate {
        return NoMoreHours;
      }
      var file := FindDumpFile(CivilOf(currentDate), server);
      assert file == ProbeFrom(CivilOf(currentDate), server, 0);
      if file.None? {
        var tempDate := currentDate;
        currentDate := currentDate + MillisPerHour;
        return MissingDump(tempDate);
      }
      var start := currentDate;
      var dataStructs := ParseHour(file.value, start, decode);
      assert HourData(start, server, decode) == Some(dataStructs);
      currentDate := start + MillisPerHour;
      return Fetched(dataStructs);
    }

    /** The loop of getPageViewData over the languages, for the dump of the hour `start`. */
    method ParseHour(lines: seq<string>, start: int, decode: UrlDecoder) returns (dataStructs: seq<PageViewDataStruct>)
      ensures dataStructs == HourStructs(lines, start, decode)
    {
      dataStructs := [];
      var nextDate := start + MillisPerHour;
      ghost var expected := HourStructs(lines, start, decode);
      var i := 0;
      while i < |langs|
        invariant 0 <= i <= |langs|
        invariant |dataStructs| == i
        invariant forall j | 0 <= j < i :: dataStructs[j] == expected[j]
      {
        var pageViewCounts := ParsePageViewData(langs[i], lines, decode);
        dataStructs := dataStructs + [PageViewDataStruct(langs[i], start, nextDate, pageViewCounts)];
        i := i + 1;
      }
    }

    /**
     * next(): fails past the end of the range; otherwise consumes one hour
     * and returns that hour's data, or the data it held before when the
     * hour's dump is missing.
     */
    method Next(server: DumpServer, decode: UrlDecoder) returns (r: Result<Option<seq<PageViewDataStruct>>, IteratorError>)
      modifies this
      ensures !old(HasNext()) ==> r == Failure(NoSuchElement) && unchanged(this)
      ensures old(HasNext()) ==> currentDate == old(currentDate) + MillisPerHour && endDate == old(endDate)
      ensures old(HasNext()) ==> HoursLeft(currentDate, endDate) == old(HoursLeft(currentDate, endDate)) - 1
      ensures old(HasNext()) ==> nextData == (match HourData(old(currentDate), server, decode)
        case None => old(nextData)
        case Some(data) => Some(data))
      ensures old(HasNext()) ==> r == Success(nextData)
    {
      if !HasNext() {
        return Failure(NoSuchElement);
      }
      ghost var hoursBefore := HoursLeft(currentDate, endDate);
      var outcome := GetPageViewData(server, decode);
      assert hoursBefore == 1 + HoursLeft(currentDate, endDate);
      if outcome.Fetched? {
        nextData := Some(outcome.data);
      }
      return Success(nextData);
    }
  }
}
