/**
  The sensor's stored reading (`Sensor._data` in sensor.py) and the tab-separated
  line `Sensor.write` appends to the log file.
 */
module Readings {
  import opened Wrappers
  import opened Strings
  import opened Decimal

  /** The numeric fields of one parsed device answer. */
  datatype RawReading = RawReading(
    temperature: int, humidity: int, light: int, pressure: int, altitude: int)

  /**
    The stored reading. `cameraLight` is `None` when the camera brightness was
    unavailable on the successful cycle that produced the reading.
   */
  datatype Reading = Reading(
    temperature: int, humidity: int, light: int, pressure: int, altitude: int,
    cameraLight: Option<int>, timestamp: int, datetime: string)

  /**
    `Sensor.reset`: the sentinel held before the first successful exchange; its log
    line shows an empty date and six zeros.
   */
  function Reset(): (r: Reading)
    ensures r.timestamp == 0 && r.cameraLight == Some(0)
    ensures Line(r) == "\t0\t0\t0\t0\t0\t0\n"
  {
    Reading(0, 0, 0, 0, 0, Some(0), 0, "")
  }

  /** Python's `"%s" % v` for the camera field: `None` or the number. */
  function ShowCamera(c: Option<int>): string {
    match c
    case None => "None"
    case Some(v) => Str(v)
  }

  /** The seven logged values, rendered, in log-column order. */
  function Fields(r: Reading): seq<string> {
    [r.datetime, Str(r.temperature), Str(r.humidity), Str(r.light),
     ShowCamera(r.cameraLight), Str(r.pressure), Str(r.altitude)]
  }

  /** `Sensor.write`: the seven values joined by tabs, ending in a newline; the date comes first. */
  function Line(r: Reading): (line: string)
    ensures IsPrefix(r.datetime + "\t", line)
    ensures |line| > 0 && line[|line| - 1] == '\n'
  {
    var f := Fields(r);
    assert Join(f, "\t") == r.datetime + "\t" + Join(f[1..], "\t");
    Join(f, "\t") + "\n"
  }

  /** The values a log line carries. */
  datatype LogRecord = LogRecord(
    datetime: string, temperature: int, humidity: int, light: int,
    cameraLight: Option<int>, pressure: int, altitude: int)

  function Record(r: Reading): LogRecord {
    LogRecord(r.datetime, r.temperature, r.humidity, r.light, r.cameraLight, r.pressure, r.altitude)
  }

  function ParseCamera(s: string): Option<Option<int>> {
    if s == "None" then Some(None)
    else match ParseInt(s)
      case None => None
      case Some(v) => Some(Some(v))
  }

  /** Reads a log line back: seven tab-separated columns and a final newline. */
  function ParseLine(line: string): Option<LogRecord> {
    if line == [] || line[|line| - 1] != '\n' then None
    else
      var cols := Split(line[..|line| - 1], "\t");
      if |cols| != 7 then None
      else
        match (ParseInt(cols[1]), ParseInt(cols[2]), ParseInt(cols[3]),
               ParseCamera(cols[4]), ParseInt(cols[5]), ParseInt(cols[6]))
        case (Some(t), Some(h), Some(l), Some(c), Some(p), Some(a)) =>
          Some(LogRecord(cols[0], t, h, l, c, p, a))
        case _ => None
  }

  lemma StrAvoids(n: int, d: char)
    requires d != '-' && !IsDigit(d)
    ensures d !in Str(n)
  {
  }

  lemma ParseShowCamera(c: Option<int>)
    ensures ParseCamera(ShowCamera(c)) == Some(c)
  {
    match c
    case None =>
    case Some(v) =>
      var s := Str(v);
      assert IsDigit(s[0]) || s[0] == '-';
      assert s != "None";
      ParseStr(v);
  }

  /** No rendered column other than the date holds a tab or a newline. */
  lemma FieldsAvoid(r: Reading, d: char)
    requires d == '\t' || d == '\n'
    requires d !in r.datetime
    ensures forall i :: 0 <= i < |Fields(r)| ==> d !in Fields(r)[i]
  {
    var f := Fields(r);
    StrAvoids(r.temperature, d);
    StrAvoids(r.humidity, d);
    StrAvoids(r.light, d);
    StrAvoids(r.pressure, d);
    StrAvoids(r.altitude, d);
    match r.cameraLight
    case None =>
    case Some(v) => StrAvoids(v, d);
  }

  /**
    A logged line has exactly six tabs, ends in its only newline, and so is one
    line of seven columns, whenever the date rendering holds neither character.
   */
  lemma LineShape(r: Reading)
    requires '\t' !in r.datetime && '\n' !in r.datetime
    ensures CountChar(Line(r), '\t') == 6
    ensures CountChar(Line(r), '\n') == 1
    ensures Line(r)[|Line(r)| - 1] == '\n'
  {
    var body := Join(Fields(r), "\t");
    FieldsAvoid(r, '\t');
    FieldsAvoid(r, '\n');
    CountCharJoin(Fields(r), '\t');
    JoinAvoids(Fields(r), "\t", '\n');
    CountCharAbsent(body, '\n');
    CountCharAppend(body, "\n", '\t');
    CountCharAppend(body, "\n", '\n');
  }

  /** Reading a written line back gives the seven values that were written. */
  lemma LineRoundTrip(r: Reading)
    requires '\t' !in r.datetime
    ensures ParseLine(Line(r)) == Some(Record(r))
  {
    var line := Line(r);
    assert line[..|line| - 1] == Join(Fields(r), "\t");
    FieldsAvoid(r, '\t');
    SplitJoinChar(Fields(r), '\t');
    ParseStr(r.temperature);
    ParseStr(r.humidity);
    ParseStr(r.light);
    ParseShowCamera(r.cameraLight);
    ParseStr(r.pressure);
    ParseStr(r.altitude);
  }
}
