/** The auction countdown (`frontend/src/components/AuctionTimer.jsx`):
    every second the remaining time to `endTime` is split into days,
    hours, minutes and seconds and one of three formats is chosen; a
    negative distance shows 'EXPIRED' and stops the timer. */
module Countdown {
  import opened Text

  const SecondMillis := 1000
  const MinuteMillis := 60000
  const HourMillis := 3600000
  const DayMillis := 86400000

  /** What the timer shows: nothing yet, 'EXPIRED', or one of the three
      count formats. */
  datatype TimerText =
    | Blank
    | ExpiredText
    | Days(days: nat, hours: nat, minutes: nat)
    | Hours(hours: nat, minutes: nat, seconds: nat)
    | Minutes(minutes: nat, seconds: nat)

  /** The text the interval callback sets for `distance = end - now`. */
  function Format(distance: int): TimerText {
    if distance < 0 then ExpiredText
    else
      var days := distance / DayMillis;
      var hours := (distance % DayMillis) / HourMillis;
      var minutes := (distance % HourMillis) / MinuteMillis;
      var seconds := (distance % MinuteMillis) / SecondMillis;
      if days > 0 then Days(days, hours, minutes)
      else if hours > 0 then Hours(hours, minutes, seconds)
      else Minutes(minutes, seconds)
  }

  /** The format follows the distance: 'EXPIRED' exactly when it is
      negative (zero still counts), days from one full day on, hours from
      one full hour on, minutes and seconds below that. Each field is in
      its range, and the fields shown add up to the distance, short of
      less than the smallest unit shown. */
  lemma FormatShowsRemaining(distance: int)
    ensures Format(distance) == ExpiredText <==> distance < 0
    ensures Format(distance).Days? <==> distance >= DayMillis
    ensures Format(distance).Hours? <==> HourMillis <= distance < DayMillis
    ensures Format(distance).Minutes? <==> 0 <= distance < HourMillis
    ensures Format(distance).Days? ==>
      var t := Format(distance);
      var shown := t.days * DayMillis + t.hours * HourMillis + t.minutes * MinuteMillis;
      t.hours < 24 && t.minutes < 60 && shown <= distance < shown + MinuteMillis
    ensures Format(distance).Hours? ==>
      var t := Format(distance);
      var shown := t.hours * HourMillis + t.minutes * MinuteMillis + t.seconds * SecondMillis;
      1 <= t.hours < 24 && t.minutes < 60 && t.seconds < 60 && shown <= distance < shown + SecondMillis
    ensures Format(distance).Minutes? ==>
      var t := Format(distance);
      var shown := t.minutes * MinuteMillis + t.seconds * SecondMillis;
      t.minutes < 60 && t.seconds < 60 && shown <= distance < shown + SecondMillis
  {
    if distance >= 0 {
      var d: nat := distance;
      var r1 := d % DayMillis;
      assert d == (d / DayMillis) * DayMillis + r1;
      var r2 := d % HourMillis;
      assert r1 == (r1 / HourMillis) * HourMillis + r2 by {
        assert d == (d / DayMillis) * 24 * HourMillis + r1;
      }
      var r3 := d % MinuteMillis;
      assert r2 == (r2 / MinuteMillis) * MinuteMillis + r3 by {
        assert d == (d / HourMillis) * 60 * MinuteMillis + r2;
      }
    }
  }

  /** `${n}d ${h}h ${m}m`, `${h}h ${m}m ${s}s` or `${m}m ${s}s`. */
  function Render(t: TimerText): string {
    match t
    case Blank => ""
    case ExpiredText => "EXPIRED"
    case Days(d, h, m) => NatToString(d) + "d " + NatToString(h) + "h " + NatToString(m) + "m"
    case Hours(h, m, s) => NatToString(h) + "h " + NatToString(m) + "m " + NatToString(s) + "s"
    case Minutes(m, s) => NatToString(m) + "m " + NatToString(s) + "s"
  }

  /** The `expired` class: present when the text is 'EXPIRED'. */
  predicate ExpiredClass(text: string) {
    text == "EXPIRED"
  }

  /** The class is present exactly when the timer has expired: a rendered
      count starts with a digit, so it never reads 'EXPIRED'. */
  lemma ExpiredClassIff(t: TimerText)
    ensures ExpiredClass(Render(t)) <==> t == ExpiredText
  {
    match t
    case Days(d, _, _) => assert Render(t)[0] == NatToString(d)[0];
    case Hours(h, _, _) => assert Render(t)[0] == NatToString(h)[0];
    case Minutes(m, _) => assert Render(t)[0] == NatToString(m)[0];
    case _ =>
  }

  /** The timer component: its text and whether its interval still runs. */
  class AuctionTimer {
    const endTime: int
    var timeLeft: TimerText
    var running: bool

    constructor (endTime: int)
      ensures this.endTime == endTime && timeLeft == Blank && running
    {
      this.endTime := endTime;
      timeLeft := Blank;
      running := true;
    }

    /** One interval callback at time `now`: the text is recomputed; a
        negative distance clears the interval. Once cleared, no callback
        runs. */
    method Tick(now: int)
      modifies this
      ensures old(running) ==> timeLeft == Format(endTime - now) && running == (endTime - now >= 0)
      ensures !old(running) ==> timeLeft == old(timeLeft) && !running
      ensures running ==> timeLeft != ExpiredText
    {
      if !running {
        return;
      }
      var distance := endTime - now;
      if distance < 0 {
        timeLeft := ExpiredText;
        running := false;
      } else {
        var days := distance / DayMillis;
        var hours := (distance % DayMillis) / HourMillis;
        var minutes := (distance % HourMillis) / MinuteMillis;
        var seconds := (distance % MinuteMillis) / SecondMillis;
        if days > 0 {
          timeLeft := Days(days, hours, minutes);
        } else if hours > 0 {
          timeLeft := Hours(hours, minutes, seconds);
        } else {
          timeLeft := Minutes(minutes, seconds);
        }
      }
    }
  }
}
