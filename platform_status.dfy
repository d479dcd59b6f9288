/** The availability gate (`PlatformStatus`): the status check, the
    countdown to the next opening formatted as `HH:MM:SS`, the reload when it
    runs out, and the choice between the application and the
    "unavailable" screen. Clock readings are given as milliseconds. */
module PlatformStatus {
  import opened Js
  import opened Types
  import Api

  const MsPerHour := 3600000
  const MsPerMinute := 60000
  const MsPerSecond := 1000

  // ---------------------------------------------------------------------
  // The arithmetic of `updateCountdown`

  /** `Math.floor(d / 3600000)`; for positive `d` floor and Euclidean division agree. */
  function Hours(d: int): int
    requires d > 0
  {
    d / MsPerHour
  }

  /** `Math.floor((d % 3600000) / 60000)` */
  function Minutes(d: int): int
    requires d > 0
  {
    (d % MsPerHour) / MsPerMinute
  }

  /** `Math.floor((d % 60000) / 1000)` */
  function Seconds(d: int): int
    requires d > 0
  {
    (d % MsPerMinute) / MsPerSecond
  }

  /** Minutes and seconds are each below sixty, and the three parts rebuild
      the difference up to the dropped milliseconds. */
  lemma SplitBounds(d: int)
    requires d > 0
    ensures Hours(d) >= 0 && 0 <= Minutes(d) <= 59 && 0 <= Seconds(d) <= 59
    ensures var whole := Hours(d) * MsPerHour + Minutes(d) * MsPerMinute + Seconds(d) * MsPerSecond;
      whole <= d < whole + MsPerSecond
  {
    var h, rh := d / MsPerHour, d % MsPerHour;
    assert d == h * MsPerHour + rh;
    var m, rm := rh / MsPerMinute, rh % MsPerMinute;
    assert rh == m * MsPerMinute + rm;
    var s, rs := rm / MsPerSecond, rm % MsPerSecond;
    assert rm == s * MsPerSecond + rs;
    assert d % MsPerMinute == rm by { MinuteRemainder(h, rh); }
  }

  /** Taking whole hours off does not change the remainder modulo a minute. */
  lemma MinuteRemainder(h: int, rh: int)
    requires h >= 0 && 0 <= rh < MsPerHour
    ensures (h * MsPerHour + rh) % MsPerMinute == rh % MsPerMinute
  {
    var q, a, b := h * 60, rh / MsPerMinute, rh % MsPerMinute;
    assert rh == a * MsPerMinute + b;
    assert h * MsPerHour + rh == (q + a) * MsPerMinute + b;
    ModOfMultiplePlus(q + a, b);
  }

  /** Division by a minute is unique: a whole number of minutes plus a
      remainder below a minute leaves that remainder. */
  lemma ModOfMultiplePlus(k: int, b: int)
    requires k >= 0 && 0 <= b < MsPerMinute
    ensures (k * MsPerMinute + b) % MsPerMinute == b
  {
    var x := k * MsPerMinute + b;
    var q, r := x / MsPerMinute, x % MsPerMinute;
    assert x == q * MsPerMinute + r;
    assert (q - k) * MsPerMinute == b - r;
  }

  /** `n.toString().padStart(2, '0')` */
  function Pad2(n: nat): string
  {
    PadStart(NatToString(n), 2, '0')
  }

  /** Below one hundred the padded numeral is exactly two digits and reads
      back as the number; at one hundred and above nothing is cut off. */
  lemma Pad2Reads(n: nat)
    ensures AllDigits(Pad2(n)) && DecimalValue(Pad2(n)) == n
    ensures n < 100 ==> |Pad2(n)| == 2
    ensures n >= 100 ==> Pad2(n) == NatToString(n)
  {
    var s := NatToString(n);
    DecimalRoundTrip(n);
    if n < 10 {
      assert |s| == 1;
      assert Pad2(n) == "0" + s;
      LeadingZero(s);
    } else {
      assert |s| >= 2 by { NumeralLength(n); }
    }
  }

  lemma NumeralLength(n: nat)
    requires n >= 10
    ensures |NatToString(n)| >= 2
  {
  }

  /** `HH:MM:SS` */
  function Clock(h: nat, m: nat, s: nat): string
  {
    Pad2(h) + ":" + Pad2(m) + ":" + Pad2(s)
  }

  /** What one run of `updateCountdown` produces. */
  datatype CountdownUpdate = CountdownUpdate(text: string, reload: bool)

  /** `updateCountdown` for the difference `nextTime - now`; `None` stands
      for `NaN`, the difference of an unparseable `nextAvailableTime`. */
  function UpdateFor(difference: Option<int>): CountdownUpdate
  {
    if difference.Some? && difference.value > 0 then
      var d := difference.value;
      CountdownUpdate(Clock(Hours(d), Minutes(d), Seconds(d)), false)
    else
      CountdownUpdate("00:00:00", true)
  }

  /** A positive difference is shown as three colon-separated fields that
      read back as its hours, minutes and seconds; the last two fields are
      exactly two digits wide. */
  lemma CountdownText(d: int)
    requires d > 0
    ensures var u := UpdateFor(Some(d));
      !u.reload
      && exists hh, mm, ss :: u.text == hh + ":" + mm + ":" + ss
           && |mm| == 2 && |ss| == 2 && |hh| >= 2
           && AllDigits(hh) && AllDigits(mm) && AllDigits(ss)
           && DecimalValue(hh) == Hours(d) && DecimalValue(mm) == Minutes(d) && DecimalValue(ss) == Seconds(d)
  {
    SplitBounds(d);
    Pad2Reads(Hours(d));
    Pad2Reads(Minutes(d));
    Pad2Reads(Seconds(d));
    var hh, mm, ss := Pad2(Hours(d)), Pad2(Minutes(d)), Pad2(Seconds(d));
    assert UpdateFor(Some(d)).text == hh + ":" + mm + ":" + ss;
  }

  /** A difference that is not positive (or not a number) shows zeros and
      reloads; a positive one under a second also shows zeros but does not. */
  lemma CountdownAtZero(difference: Option<int>)
    ensures (difference.None? || difference.value <= 0) ==> UpdateFor(difference) == CountdownUpdate("00:00:00", true)
    ensures difference.Some? && 0 < difference.value < MsPerSecond ==>
      UpdateFor(difference) == CountdownUpdate("00:00:00", false)
  {
    if difference.Some? && 0 < difference.value < MsPerSecond {
      var d := difference.value;
      assert Hours(d) == 0 && Minutes(d) == 0 && Seconds(d) == 0;
      assert Pad2(0) == "00";
    }
  }

  // ---------------------------------------------------------------------
  // Gates

  /** The countdown effect runs when a status is known, closed, and names the next opening. */
  predicate CountdownRuns(status: Option<StatusResponse>)
  {
    status.Some? && !status.value.isAvailable && Truthy(status.value.nextAvailableTime)
  }

  datatype Screen = Spinner | Unavailable | Application

  /** What the component renders. */
  function ScreenFor(loading: bool, status: Option<StatusResponse>): (r: Screen)
    ensures r == Application <==> !loading && status.Some? && status.value.isAvailable
    ensures r == Unavailable <==> !loading && (status.None? || !status.value.isAvailable)
  {
    if loading then Spinner
    else if !(status.Some? && status.value.isAvailable) then Unavailable
    else Application
  }

  // ---------------------------------------------------------------------
  // The component

  class PlatformStatus {
    var status: Option<StatusResponse>
    var timeUntilNext: string
    var loading: bool
    var countdownRunning: bool
    var reloadRequested: bool
    var calls: seq<Api.Endpoint>

    constructor ()
      ensures status == None && timeUntilNext == "" && loading
      ensures !countdownRunning && !reloadRequested && calls == []
    {
      status, timeUntilNext, loading := None, "", true;
      countdownRunning, reloadRequested, calls := false, false, [];
    }

    function Render(): Screen
      reads this
    {
      ScreenFor(loading, status)
    }

    /** One run of `updateCountdown`. */
    method UpdateCountdown(difference: Option<int>)
      modifies this`timeUntilNext, this`reloadRequested
      ensures timeUntilNext == UpdateFor(difference).text
      ensures reloadRequested == (old(reloadRequested) || UpdateFor(difference).reload)
    {
      if difference.Some? && difference.value > 0 {
        var d := difference.value;
        var hours := d / MsPerHour;
        var minutes := (d % MsPerHour) / MsPerMinute;
        var seconds := (d % MsPerMinute) / MsPerSecond;
        timeUntilNext := Pad2(hours) + ":" + Pad2(minutes) + ":" + Pad2(seconds);
      } else {
        timeUntilNext := "00:00:00";
        reloadRequested := true;
      }
    }

    /** `checkStatus`, followed by the countdown effect that a new status
        re-runs. `reply` is how `getStatus` settles; `difference` is
        `nextTime - now` at that moment (`None` for `NaN`). */
    method CheckStatus(reply: Settled<StatusResponse>, difference: Option<int>)
      modifies this
      ensures calls == old(calls) + [Api.GetStatus] && !loading
      ensures reply.Rejected? ==>
        status == old(status) && countdownRunning == old(countdownRunning)
        && timeUntilNext == old(timeUntilNext) && reloadRequested == old(reloadRequested)
      ensures reply.Fulfilled? ==> status == Some(reply.value) && countdownRunning == CountdownRuns(status)
      ensures reply.Fulfilled? && CountdownRuns(status) ==>
        timeUntilNext == UpdateFor(difference).text
        && reloadRequested == (old(reloadRequested) || UpdateFor(difference).reload)
      ensures reply.Fulfilled? && !CountdownRuns(status) ==>
        timeUntilNext == old(timeUntilNext) && reloadRequested == old(reloadRequested)
    {
      calls := calls + [Api.GetStatus];
      match reply {
        case Fulfilled(s) =>
          status := Some(s);
          countdownRunning := false;   // the previous effect's interval is cleared
          if CountdownRuns(status) {
            UpdateCountdown(difference);
            countdownRunning := true;
          }
        case Rejected(_) =>
      }
      loading := false;
    }

    /** One second of the running countdown. */
    method CountdownTick(difference: Option<int>)
      requires countdownRunning
      modifies this`timeUntilNext, this`reloadRequested
      ensures timeUntilNext == UpdateFor(difference).text
      ensures reloadRequested == (old(reloadRequested) || UpdateFor(difference).reload)
    {
      UpdateCountdown(difference);
    }

    /** Unmounting clears the countdown interval. */
    method Unmount()
      modifies this`countdownRunning
      ensures !countdownRunning
    {
      countdownRunning := false;
    }
  }

  /** On mount the component checks the status; when that first check
      fails, loading ends with no status, and the unavailable screen is
      rendered instead of the application. */
  method FailedFirstCheckBlocks(reason: Rejection, difference: Option<int>) returns (screen: Screen)
    ensures screen == Unavailable
  {
    var component := new PlatformStatus();
    component.CheckStatus(Rejected(reason), difference);
    screen := component.Render();
  }
}
