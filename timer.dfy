/**
 * The focus timer: a countdown of whole seconds driven by a one-second
 * tick, with start, pause, reset and preset controls, a break period
 * after each finished session, and a session counter saved to storage.
 */
module Timer {
  import opened Text
  import opened Store

  /** A work period: 25 minutes. */
  const WorkSeconds := 25 * 60

  /** The break that follows a finished session: 5 minutes. */
  const BreakSeconds := 5 * 60

  /**
   * `seconds % 60` as JavaScript computes it: the remainder takes the sign
   * of `seconds`, unlike Dafny's `%`, whose remainder is never negative.
   */
  function SecondsField(seconds: int): (r: int)
    ensures seconds >= 0 ==> 0 <= r < 60 && seconds == 60 * (seconds / 60) + r
    ensures seconds < 0 ==> -60 < r <= 0
    ensures (seconds - r) % 60 == 0
  {
    if seconds >= 0 then seconds % 60 else -((-seconds) % 60)
  }

  /**
   * `updateTimerDisplay`: minutes `Math.floor(seconds / 60)` and seconds
   * `seconds % 60`, each padded with zeros to two characters, joined by a
   * colon. Dafny's `/` by a positive divisor already rounds down.
   */
  function Display(seconds: int): (r: string)
    ensures |r| >= 5
    ensures seconds >= 0 ==> r[|r| - 3] == ':' && r[|r| - 2..] == PadStart(NatToDecimal(seconds % 60), 2, '0')
  {
    PadStart(IntToDecimal(seconds / 60), 2, '0') + ":" + PadStart(IntToDecimal(SecondsField(seconds)), 2, '0')
  }

  /** A padded decimal keeps its value and its digits. */
  lemma PaddedDecimal(n: nat)
    ensures var p := PadStart(NatToDecimal(n), 2, '0');
            && AllDigits(p) && DecimalValue(p) == n
            && |p| >= 2 && (n < 100 <==> |p| == 2)
  {
    var d := NatToDecimal(n);
    var p := PadStart(d, 2, '0');
    var zeros := p[..|p| - |d|];
    assert p == zeros + d;
    LeadingZerosKeepValue(zeros, d);
  }

  /** The text before the colon of a display. */
  function Minutes(r: string): string
    requires |r| >= 3
  {
    r[..|r| - 3]
  }

  /** The two characters after the colon of a display. */
  function SecondsOf(r: string): string
    requires |r| >= 3
  {
    r[|r| - 2..]
  }

  /** The two fields of "MM:SS" can be cut back out at the colon. */
  lemma SplitAtColon(r: string, mm: string, ss: string)
    requires |ss| == 2 && r == mm + ":" + ss
    ensures |r| == |mm| + 3 && r[|r| - 3] == ':' && Minutes(r) == mm && SecondsOf(r) == ss
  {
  }

  /** The display of a non-negative count is its two padded fields joined by a colon. */
  lemma DisplayFields(seconds: nat)
    ensures Display(seconds) ==
            PadStart(NatToDecimal(seconds / 60), 2, '0') + ":" + PadStart(NatToDecimal(seconds % 60), 2, '0')
  {
    assert SecondsField(seconds) == seconds % 60;
  }

  /**
   * For any non-negative count the display reads back as that count: two
   * or more minute digits, a colon, two second digits below 60; exactly
   * "MM:SS" below 100 minutes.
   */
  lemma DisplayReadsBack(seconds: nat)
    ensures |Display(seconds)| >= 5 && Display(seconds)[|Display(seconds)| - 3] == ':'
    ensures AllDigits(Minutes(Display(seconds))) && AllDigits(SecondsOf(Display(seconds)))
    ensures 60 * DecimalValue(Minutes(Display(seconds))) + DecimalValue(SecondsOf(Display(seconds))) == seconds
    ensures DecimalValue(SecondsOf(Display(seconds))) < 60
    ensures seconds < 6000 <==> |Display(seconds)| == 5
  {
    var m, sec := seconds / 60, seconds % 60;
    var mm := PadStart(NatToDecimal(m), 2, '0');
    var ss := PadStart(NatToDecimal(sec), 2, '0');
    assert seconds == 60 * m + sec && sec < 60;
    assert m < 100 <==> seconds < 6000;
    PaddedDecimal(m);
    PaddedDecimal(sec);
    DisplayFields(seconds);
    var r := Display(seconds);
    assert |ss| == 2 && r == mm + ":" + ss;
    SplitAtColon(r, mm, ss);
    assert DecimalValue(Minutes(r)) == m && DecimalValue(SecondsOf(r)) == sec;
  }

  /** The display at page load: "25:00". */
  lemma WorkDisplay()
    ensures Display(WorkSeconds) == "25:00"
  {
    assert WorkSeconds / 60 == 25 && SecondsField(WorkSeconds) == 0;
    assert NatToDecimal(2) == "2";
    assert NatToDecimal(25) == "25";
    assert IntToDecimal(25) == "25" && IntToDecimal(0) == "0";
    assert PadStart("25", 2, '0') == "25";
    assert PadStart("0", 2, '0') == PadStart("00", 2, '0') == "00";
  }

  /** The display after a finished session: "05:00". */
  lemma BreakDisplay()
    ensures Display(BreakSeconds) == "05:00"
  {
    assert BreakSeconds / 60 == 5 && SecondsField(BreakSeconds) == 0;
    assert IntToDecimal(5) == "5" && IntToDecimal(0) == "0";
    assert PadStart("5", 2, '0') == PadStart("05", 2, '0') == "05";
    assert PadStart("0", 2, '0') == PadStart("00", 2, '0') == "00";
  }

  /**
   * The transient display of -1 seconds, shown between the tick that ends
   * a zero-minute preset and the switch to the break: JavaScript's `%`
   * keeps the sign, so both fields read "-1".
   */
  lemma MinusOneDisplay()
    ensures Display(-1) == "-1:-1"
  {
    assert -1 / 60 == -1;
    assert SecondsField(-1) == -1;
    assert NatToDecimal(1) == "1";
    assert IntToDecimal(-1) == "-1";
    assert PadStart("-1", 2, '0') == "-1";
  }

  /**
   * The countdown. `timerSeconds`, `timerRunning` and `sessionsCompleted`
   * are the page's own variables; `storage` is where the session count is saved.
   */
  class FocusTimer {
    var timerSeconds: int
    var timerRunning: bool
    var sessionsCompleted: nat
    const storage: LocalStorage

    ghost predicate Valid()
      reads this, storage
    {
      timerSeconds >= 0 && storage.Valid()
    }

    /** Page load: a stopped 25-minute period and the saved session count, if any. */
    constructor (storage: LocalStorage)
      requires storage.Valid()
      ensures Valid() && this.storage == storage
      ensures timerSeconds == WorkSeconds && !timerRunning
      ensures sessionsCompleted == SavedSessions(storage.entries)
    {
      this.storage := storage;
      timerSeconds := WorkSeconds;
      timerRunning := false;
      sessionsCompleted := SavedSessions(storage.entries);
    }

    /** `startTimer`: does nothing while running; otherwise starts the countdown where it stands. */
    method Start()
      requires Valid()
      modifies this
      ensures Valid() && timerRunning
      ensures timerSeconds == old(timerSeconds) && sessionsCompleted == old(sessionsCompleted)
    {
      if timerRunning {
        return;
      }
      timerRunning := true;
    }

    /**
     * One firing of the one-second interval, which exists only while the
     * timer runs. The count drops by one; on reaching zero or below the timer
     * stops, one more session is counted and saved, and a 5-minute break is set.
     */
    method Tick()
      requires Valid() && timerRunning
      modifies this, storage
      ensures Valid()
      ensures old(timerSeconds) - 1 > 0 ==>
                && timerSeconds == old(timerSeconds) - 1 && timerRunning
                && sessionsCompleted == old(sessionsCompleted)
                && storage.entries == old(storage.entries)
      ensures old(timerSeconds) - 1 <= 0 ==>
                && timerSeconds == BreakSeconds && !timerRunning
                && sessionsCompleted == old(sessionsCompleted) + 1
                && storage.entries == old(storage.entries)[SessionsKey := Count(sessionsCompleted)]
      ensures timerSeconds > 0
    {
      timerSeconds := timerSeconds - 1;
      if timerSeconds <= 0 {
        timerRunning := false;
        sessionsCompleted := sessionsCompleted + 1;
        storage.entries := storage.entries[SessionsKey := Count(sessionsCompleted)];
        timerSeconds := BreakSeconds;
      }
    }

    /** `pauseTimer`: does nothing unless running; otherwise stops the countdown where it stands. */
    method Pause()
      requires Valid()
      modifies this
      ensures Valid() && !timerRunning
      ensures timerSeconds == old(timerSeconds) && sessionsCompleted == old(sessionsCompleted)
    {
      if !timerRunning {
        return;
      }
      timerRunning := false;
    }

    /** `resetTimer`: stopped, at a full 25-minute period. */
    method Reset()
      requires Valid()
      modifies this
      ensures Valid() && !timerRunning && timerSeconds == WorkSeconds
      ensures sessionsCompleted == old(sessionsCompleted)
    {
      timerRunning := false;
      timerSeconds := WorkSeconds;
    }

    /** `setTimer(minutes)`, from a preset button: stopped, at `minutes` whole minutes. */
    method SetTimer(minutes: nat)
      requires Valid()
      modifies this
      ensures Valid() && !timerRunning && timerSeconds == minutes * 60
      ensures sessionsCompleted == old(sessionsCompleted)
    {
      timerRunning := false;
      timerSeconds := minutes * 60;
    }
  }

  /**
   * Client checks of the controls: a pause neither loses nor repeats a
   * second, and a zero-minute preset finishes a session on its first tick.
   */
  method TimerScenarios(storage: LocalStorage)
    requires storage.Valid()
    modifies storage
  {
    var t := new FocusTimer(storage);
    t.SetTimer(1);
    t.Start();
    t.Tick();
    assert t.timerSeconds == 59;
    t.Pause();
    t.Start();
    t.Tick();
    assert t.timerSeconds == 58 && t.timerRunning;

    var sessions := t.sessionsCompleted;
    t.SetTimer(0);
    assert !t.timerRunning;
    t.Start();
    t.Tick();
    assert !t.timerRunning && t.timerSeconds == BreakSeconds;
    assert t.sessionsCompleted == sessions + 1;
    assert SavedSessions(storage.entries) == sessions + 1;
  }
}
