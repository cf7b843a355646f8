/** The server's analytics singleton: five request counters and the HTML
    report the health handler serves. The clock is not modelled: the report
    takes the uptime in seconds as a parameter. */
module Analytics {
  import opened Common

  /** A snapshot of the five counters. */
  datatype Counts = Counts(gets: nat, posts: nat, invalid: nat, malicious: nat, health: nat)

  /** "Requests served": every counter contributes. */
  function Total(c: Counts): nat {
    c.gets + c.posts + c.invalid + c.malicious + c.health
  }

  /** Uptime split into days, hours, minutes and seconds. */
  datatype Uptime = Uptime(days: int, hours: int, minutes: int, seconds: int)

  /** The report's decomposition: divide by a day, subtract, divide by an
      hour, subtract, divide by a minute, subtract; C++ division truncates. */
  function Decompose(uptime: int): (u: Uptime)
    requires uptime >= 0
    ensures u.days * 86400 + u.hours * 3600 + u.minutes * 60 + u.seconds == uptime
    ensures u.days >= 0 && 0 <= u.hours < 24 && 0 <= u.minutes < 60 && 0 <= u.seconds < 60
  {
    var days := CDiv(uptime, 86400);
    var afterDays := uptime - days * 86400;
    var hours := CDiv(afterDays, 3600);
    var afterHours := afterDays - hours * 3600;
    var minutes := CDiv(afterHours, 60);
    var seconds := afterHours - minutes * 60;
    Uptime(days, hours, minutes, seconds)
  }

  /** The decomposition is the unique one with those bounds. */
  lemma DecomposeUnique(uptime: int, u: Uptime)
    requires uptime >= 0
    requires u.days * 86400 + u.hours * 3600 + u.minutes * 60 + u.seconds == uptime
    requires u.days >= 0 && 0 <= u.hours < 24 && 0 <= u.minutes < 60 && 0 <= u.seconds < 60
    ensures u == Decompose(uptime)
  {
    var v := Decompose(uptime);
    assert u.days == v.days;
    assert u.hours == v.hours;
  }

  const ReportHead: string :=
    "<!doctype html><html><head><link rel=\"icon\" href=\"data:,\"><title>Analytics</title></head><body><pre>"

  const ReportTail: string := "</pre></body></html>"

  function UptimeLine(u: Uptime): string
    requires u.days >= 0 && u.hours >= 0 && u.minutes >= 0 && u.seconds >= 0
  {
    "Uptime: " + NatToString(u.days) + "d " + NatToString(u.hours) + "h "
    + NatToString(u.minutes) + "m " + NatToString(u.seconds) + "s\n\n"
  }

  function ServedLine(c: Counts): string {
    "Requests served: " + NatToString(Total(c)) + "\n"
  }

  function CounterLines(c: Counts): string {
    "- " + NatToString(c.gets) + " valid (GET)\n"
    + "- " + NatToString(c.posts) + " valid (POST)\n"
    + "- " + NatToString(c.invalid) + " invalid\n"
    + "- " + NatToString(c.malicious) + " malicious\n"
    + "- " + NatToString(c.health) + " health checks\n"
  }

  class Analytics {
    var gets: nat
    var posts: nat
    var invalid: nat
    var malicious: nat
    var health: nat

    /** All five counters start at zero. */
    constructor ()
      ensures Snapshot() == Counts(0, 0, 0, 0, 0)
    {
      gets, posts, invalid, malicious, health := 0, 0, 0, 0, 0;
    }

    function Snapshot(): Counts
      reads this
    {
      Counts(gets, posts, invalid, malicious, health)
    }

    /** `Analytics::report()` for an uptime of `uptime` seconds. The page is
        the fixed head, the uptime line, the total of all five counters, one
        line per counter, and the fixed tail. */
    function Report(uptime: int): (r: string)
      requires uptime >= 0
      reads this
      ensures StartsWith(r, ReportHead) && EndsWith(r, ReportTail)
      ensures MatchAt(r, UptimeLine(Decompose(uptime)), |ReportHead|)
      ensures MatchAt(r, ServedLine(Snapshot()), |ReportHead| + |UptimeLine(Decompose(uptime))|)
      ensures MatchAt(r, CounterLines(Snapshot()),
                      |ReportHead| + |UptimeLine(Decompose(uptime))| + |ServedLine(Snapshot())|)
      ensures |r| == |ReportHead| + |UptimeLine(Decompose(uptime))| + |ServedLine(Snapshot())|
                     + |CounterLines(Snapshot())| + |ReportTail|
    {
      var u := Decompose(uptime);
      var c := Snapshot();
      var lead := ReportHead + UptimeLine(u);
      var rest := CounterLines(c) + ReportTail;
      ConcatParts(lead, ServedLine(c), rest);
      ConcatParts(ReportHead, UptimeLine(u) + ServedLine(c), rest);
      ConcatParts(lead + ServedLine(c), CounterLines(c), ReportTail);
      lead + ServedLine(c) + rest
    }
  }
}
