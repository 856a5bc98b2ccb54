/**
 * The appliance's keypad and display (PssIO): key releases of the number
 * keys are typed into a four-slot buffer shown on the OLED; the fourth digit
 * publishes the number the visitor asked for and disables input. The
 * oscilloscope draws one column per eighth sample while a question is being
 * recorded.
 *
 * The Rx pipelines become events the class reacts to: a key event, the
 * three-second input timeout and the end of the ten-second fade.
 */
module KeypadIO {
  import opened Common

  /** java.awt.event.KeyEvent.VK_0 .. VK_9 and the evdev EV_KEY event type. */
  const VK_0: int := 48
  const VK_9: int := 57
  const EV_KEY: int := 1

  /** The slot value of an empty position. */
  const BLANK: char := '_'

  /** keyCodeIsNumber */
  predicate KeyCodeIsNumber(code: int)
  {
    code == 48 || code == 49 || code == 50 || code == 51 || code == 52
    || code == 53 || code == 54 || code == 55 || code == 56 || code == 57
  }

  /** getCharFromKeycode: the digit of a number key; any other code reads as '0'. */
  function CharFromKeycode(code: int): (c: char)
    ensures IsDigit(c)
  {
    if code == 48 then '0' else if code == 49 then '1' else if code == 50 then '2'
    else if code == 51 then '3' else if code == 52 then '4' else if code == 53 then '5'
    else if code == 54 then '6' else if code == 55 then '7' else if code == 56 then '8'
    else if code == 57 then '9' else '0'
  }

  /** The number keys are exactly VK_0 .. VK_9, and each types its own digit. */
  lemma KeyCodes(code: int)
    ensures KeyCodeIsNumber(code) <==> VK_0 <= code <= VK_9
    ensures KeyCodeIsNumber(code) ==> DigitValue(CharFromKeycode(code)) == code - VK_0
    ensures !KeyCodeIsNumber(code) ==> CharFromKeycode(code) == '0'
  {
  }

  /** The display buffer and the position of the last character typed into it. */
  datatype Entry = Entry(slots: seq<char>, pos: int)

  /** Four slots; those after the position are blank. */
  predicate WellFormed(e: Entry)
  {
    |e.slots| == 4 && -1 <= e.pos <= 3 && forall i :: e.pos < i < 4 ==> e.slots[i] == BLANK
  }

  /** What resetBuffer leaves. */
  function Blank(): (e: Entry)
    ensures WellFormed(e)
  {
    Entry([BLANK, BLANK, BLANK, BLANK], -1)
  }

  /**
   * One character typed into the buffer: it goes into the next slot; a fifth
   * character clears the buffer and becomes the first.
   */
  function Type(e: Entry, c: char): (r: Entry)
    requires WellFormed(e)
    ensures WellFormed(r) && 0 <= r.pos && r.slots[r.pos] == c
    ensures e.pos < 3 ==> r.pos == e.pos + 1 && forall i :: 0 <= i < 4 && i != r.pos ==> r.slots[i] == e.slots[i]
    ensures e.pos == 3 ==> r.pos == 0 && forall i :: 0 < i < 4 ==> r.slots[i] == BLANK
  {
    if e.pos + 1 < 4 then Entry(e.slots[e.pos + 1 := c], e.pos + 1)
    else Entry([c, BLANK, BLANK, BLANK], 0)
  }

  /** The number published when the fourth slot has just been filled: toIntOrNull of the four characters. */
  function Publish(e: Entry): seq<int>
  {
    if e.pos == 3 && JavaParseInt(e.slots).Some? then [JavaParseInt(e.slots).value] else []
  }

  /** The buffer after typing `keys` into a blank one, one at a time. */
  function TypeAll(keys: seq<char>): (e: Entry)
    ensures WellFormed(e)
  {
    if keys == [] then Blank() else Type(TypeAll(keys[..|keys| - 1]), keys[|keys| - 1])
  }

  /** The numbers published while typing `keys` into a blank buffer. */
  function PublishedAll(keys: seq<char>): seq<int>
  {
    if keys == [] then [] else PublishedAll(keys[..|keys| - 1]) + Publish(TypeAll(keys))
  }

  /** The keys typed since the buffer last rolled over: a group of four is closed by the next key. */
  function OpenGroup(keys: seq<char>): (g: seq<char>)
    ensures |g| <= 4
  {
    if keys == [] then []
    else if |OpenGroup(keys[..|keys| - 1])| == 4 then [keys[|keys| - 1]]
    else OpenGroup(keys[..|keys| - 1]) + [keys[|keys| - 1]]
  }

  /** The open group is the last n % 4 keys of n, or the last four when four divides n. */
  lemma {:induction false} OpenGroupLength(keys: seq<char>)
    requires keys != []
    ensures |OpenGroup(keys)| == if |keys| % 4 == 0 then 4 else |keys| % 4
  {
    var init := keys[..|keys| - 1];
    if init != [] {
      OpenGroupLength(init);
      var q := |init| / 4;
      assert |init| == 4 * q + |init| % 4;
    }
  }

  /** The open group is a tail of the keys. */
  lemma {:induction false} OpenGroupIsTail(keys: seq<char>)
    ensures |OpenGroup(keys)| <= |keys|
    ensures OpenGroup(keys) == keys[|keys| - |OpenGroup(keys)|..]
  {
    if keys != [] {
      var init := keys[..|keys| - 1];
      OpenGroupIsTail(init);
      var m := |OpenGroup(init)|;
      if m < 4 {
        assert keys[|keys| - m - 1..] == init[|init| - m..] + [keys[|keys| - 1]];
      }
    }
  }

  /** The buffer, read as an entry: the open group followed by blanks, positioned on its last key. */
  function Shows(g: seq<char>): Entry
    requires |g| <= 4
  {
    Entry(g + seq(4 - |g|, _ => BLANK), |g| - 1)
  }

  /** Typing a key into the buffer that shows a group shows the group with that key. */
  lemma TypeShows(g: seq<char>, c: char)
    requires |g| <= 4
    ensures WellFormed(Shows(g))
    ensures Type(Shows(g), c) == if |g| == 4 then Shows([c]) else Shows(g + [c])
  {
    assert Shows(g).slots[..|g|] == g;
    if |g| < 4 {
      assert Type(Shows(g), c).slots == Shows(g + [c]).slots;
    } else {
      assert Type(Shows(g), c).slots == Shows([c]).slots;
    }
  }

  /**
   * The buffer holds the keys of the open group followed by blanks, and its
   * position is that of the group's last key.
   */
  lemma {:induction false} TypeAllShowsOpenGroup(keys: seq<char>)
    ensures TypeAll(keys) == Shows(OpenGroup(keys))
  {
    if keys != [] {
      var init := keys[..|keys| - 1];
      TypeAllShowsOpenGroup(init);
      TypeShows(OpenGroup(init), keys[|keys| - 1]);
    } else {
      assert Shows([]).slots == Blank().slots;
    }
  }

  /** Four digit characters read as the number they spell, leading zeros dropped: 0 .. 9999. */
  lemma FourDigits(s: seq<char>)
    requires |s| == 4 && AllDigits(s)
    ensures JavaParseInt(s) == Some(DigitsValue(s)) && DigitsValue(s) <= 9999
  {
    DigitsValueBound(s);
    JavaParseIntOfDigits(s);
  }

  /** Every stretch of a digit string is a digit string. */
  lemma DigitsSlice(s: seq<char>, i: nat, j: nat)
    requires AllDigits(s) && i <= j <= |s|
    ensures AllDigits(s[i..j])
  {
    forall k | 0 <= k < j - i ensures IsDigit(s[i..j][k]) {
      assert s[i..j][k] == s[i + k];
    }
  }

  /** The key that completes a group of four digits publishes that group's value; no other key publishes. */
  lemma PublishStep(keys: seq<char>)
    requires keys != [] && AllDigits(keys)
    ensures |keys| % 4 == 0 ==> |keys| >= 4 && Publish(TypeAll(keys)) == [DigitsValue(keys[|keys| - 4..])]
    ensures |keys| % 4 != 0 ==> Publish(TypeAll(keys)) == []
  {
    TypeAllShowsOpenGroup(keys);
    OpenGroupLength(keys);
    var g := OpenGroup(keys);
    if |keys| % 4 == 0 {
      assert |g| == 4;
      OpenGroupIsTail(keys);
      assert g == keys[|keys| - 4..];
      assert TypeAll(keys).slots == g;
      DigitsSlice(keys, |keys| - 4, |keys|);
      FourDigits(g);
    }
  }

  /** The value of the j-th group of four keys. */
  function GroupValue(keys: seq<char>, j: nat): nat
    requires AllDigits(keys) && 4 * j + 4 <= |keys|
  {
    DigitsSlice(keys, 4 * j, 4 * j + 4);
    DigitsValue(keys[4 * j..4 * j + 4])
  }

  /**
   * Typing digits publishes one number per complete group of four, in order:
   * the value of that group, at most 9999.
   */
  lemma {:induction false} PublishedGroups(keys: seq<char>)
    requires AllDigits(keys)
    ensures |PublishedAll(keys)| == |keys| / 4
    ensures forall j :: 0 <= j < |keys| / 4 ==> PublishedAll(keys)[j] == GroupValue(keys, j) <= 9999
  {
    if keys != [] {
      var n := |keys|;
      var init := keys[..n - 1];
      DigitsSlice(keys, 0, n - 1);
      PublishedGroups(init);
      PublishedSnoc(keys);
      GroupsStep(keys, PublishedAll(init), PublishedAll(keys));
    }
  }

  /** The group values of all but the last key, extended by what the last key publishes, are those of all keys. */
  lemma GroupsStep(keys: seq<char>, before: seq<int>, after: seq<int>)
    requires keys != [] && AllDigits(keys) && AllDigits(keys[..|keys| - 1])
    requires |before| == (|keys| - 1) / 4
    requires forall j :: 0 <= j < |before| ==> before[j] == GroupValue(keys[..|keys| - 1], j) <= 9999
    requires |keys| % 4 == 0 ==> (|keys| >= 4 && GroupValue(keys, |keys| / 4 - 1) <= 9999 &&
      after == before + [GroupValue(keys, |keys| / 4 - 1)])
    requires |keys| % 4 != 0 ==> after == before
    ensures |after| == |keys| / 4
    ensures forall j :: 0 <= j < |keys| / 4 ==> after[j] == GroupValue(keys, j) <= 9999
  {
    var n := |keys|;
    QuarterStep(n);
    forall j | 0 <= j < n / 4
      ensures after[j] == GroupValue(keys, j) <= 9999
    {
      if j < (n - 1) / 4 {
        GroupValuePrefix(keys, n - 1, j);
        assert after[j] == before[j];
      }
    }
  }

  /** One more key either completes a group, publishing its value, or publishes nothing. */
  lemma PublishedSnoc(keys: seq<char>)
    requires keys != [] && AllDigits(keys)
    ensures |keys| % 4 == 0 ==> (|keys| >= 4 && GroupValue(keys, |keys| / 4 - 1) <= 9999 &&
      PublishedAll(keys) == PublishedAll(keys[..|keys| - 1]) + [GroupValue(keys, |keys| / 4 - 1)])
    ensures |keys| % 4 != 0 ==> PublishedAll(keys) == PublishedAll(keys[..|keys| - 1])
  {
    var n := |keys|;
    PublishStep(keys);
    assert PublishedAll(keys) == PublishedAll(keys[..n - 1]) + Publish(TypeAll(keys));
    if n % 4 == 0 {
      LastGroupValue(keys);
    }
  }

  /** The last group of a key sequence of whole groups: its value, as a number of at most four digits. */
  lemma LastGroupValue(keys: seq<char>)
    requires AllDigits(keys) && |keys| >= 4 && |keys| % 4 == 0
    ensures GroupValue(keys, |keys| / 4 - 1) == DigitsValue(keys[|keys| - 4..]) <= 9999
  {
    var n := |keys|;
    QuarterStep(n);
    var last := n / 4 - 1;
    assert keys[n - 4..] == keys[4 * last..4 * last + 4];
    DigitsSlice(keys, n - 4, n);
    FourDigits(keys[n - 4..]);
  }

  /** A group of four keys has the same value in any prefix that holds it. */
  lemma GroupValuePrefix(keys: seq<char>, m: nat, j: nat)
    requires AllDigits(keys) && 4 * j + 4 <= m <= |keys|
    ensures AllDigits(keys[..m]) && GroupValue(keys[..m], j) == GroupValue(keys, j)
  {
    DigitsSlice(keys, 0, m);
    assert keys[..m][4 * j..4 * j + 4] == keys[4 * j..4 * j + 4];
  }

  /** How the number of complete groups of four grows by one key. */
  lemma QuarterStep(n: nat)
    requires n > 0
    ensures n % 4 == 0 ==> n >= 4 && (n - 1) / 4 == n / 4 - 1 && n - 4 == 4 * (n / 4 - 1)
    ensures n % 4 != 0 ==> (n - 1) / 4 == n / 4
  {
    var q, r := n / 4, n % 4;
    if r == 0 {
      assert n - 1 == 4 * (q - 1) + 3;
    } else {
      assert n - 1 == 4 * q + (r - 1);
    }
  }

  /**
   * The oscilloscope's column rule: sample i is plotted when it is odd and
   * i - 1 is a multiple of 8, with Kotlin's remainder.
   */
  predicate Plotted(i: int)
  {
    JavaRem(i, 2) != 0 && JavaRem(i - 1, 8) == 0
  }

  /** The height of a column, clamped to the display's half height. */
  function Clamp(y: int): (h: int)
    ensures -31 <= h <= 31
    ensures -31 <= y <= 31 ==> h == y
  {
    if y < -31 then -31 else if y > 31 then 31 else y
  }

  /** Dividing 8q + r by 8 leaves quotient q and residue r, for any whole q. */
  lemma ResidueOf(q: int, r: int)
    requires 0 <= r < 8
    ensures (8 * q + r) / 8 == q && (8 * q + r) % 8 == r
  {
  }

  /** The number of columns drawn grows by one exactly at the plotted samples. */
  lemma ColumnCount(i: nat)
    ensures i % 8 == 1 ==> (i + 7) / 8 == (i + 6) / 8 + 1 && i == 8 * ((i + 6) / 8) + 1
    ensures i % 8 != 1 ==> (i + 7) / 8 == (i + 6) / 8
  {
    var q, r := i / 8, i % 8;
    assert i == 8 * q + r;
    if r == 0 {
      ResidueOf(q, 6);
      ResidueOf(q, 7);
    } else if r == 1 {
      ResidueOf(q, 7);
      ResidueOf(q + 1, 0);
    } else {
      ResidueOf(q + 1, r - 2);
      ResidueOf(q + 1, r - 1);
    }
  }

  /** Residues modulo 8 of consecutive numbers, and the parity they fix. */
  lemma ResidueStep(i: nat)
    requires i > 0
    ensures (i - 1) % 8 == 0 <==> i % 8 == 1
    ensures i % 8 == 1 ==> i % 2 == 1
  {
    var q, r := i / 8, i % 8;
    assert i == 8 * q + r;
    if r == 0 {
      ResidueOf(q - 1, 7);
      assert i - 1 == 8 * (q - 1) + 7;
    } else {
      ResidueOf(q, r - 1);
      assert i - 1 == 8 * q + (r - 1);
    }
    if r == 1 {
      assert i == 2 * (4 * q) + 1;
    }
  }

  /** The plotted samples are exactly those at indices 1, 9, 17, ... */
  lemma PlottedIndices(i: nat)
    ensures Plotted(i) <==> i % 8 == 1
  {
    if i == 0 {
      assert JavaRem(i, 2) == 0;
    } else {
      ResidueStep(i);
      assert JavaRem(i, 2) == i % 2 && JavaRem(i - 1, 8) == (i - 1) % 8;
    }
  }

  /**
   * One frame of the oscilloscope: `levels` are the samples already scaled to
   * whole pixels; the result holds the height of each column drawn, at x =
   * 0, 1, 2, ...: the clamped level of sample 8x + 1.
   */
  method Oscilloscope(levels: seq<int>) returns (columns: seq<int>)
    ensures |columns| == (|levels| + 6) / 8
    ensures forall x :: 0 <= x < |columns| ==> columns[x] == Clamp(levels[8 * x + 1]) && -31 <= columns[x] <= 31
  {
    columns := [];
    var x := 0;
    for i := 0 to |levels|
      invariant x == |columns| == (i + 6) / 8
      invariant forall k :: 0 <= k < x ==> columns[k] == Clamp(levels[8 * k + 1])
    {
      PlottedIndices(i);
      ColumnCount(i);
      if JavaRem(i, 2) != 0 && JavaRem(i - 1, 8) == 0 {
        var y := levels[i];
        if y < -31 {
          y := -31;
        }
        if y > 31 {
          y := 31;
        }
        columns := columns + [y];
        x := x + 1;
      }
    }
  }

  class PssIO {
    const displayBuffer: array<char>
    var currentPos: int
    var inputEnabled: bool
    /** A number is on show and fades away unless a key clears it first. */
    var fadingNumber: bool
    /** The fade timer fadeDisposable refers to is pending. */
    var fadeScheduled: bool
    /**
     * Earlier fade timers still pending: enableUserInput overwrites
     * fadeDisposable without disposing the timer it held, so nothing can
     * cancel these. All timers have the same delay, so they fire in the order
     * they were started, these before the one fadeDisposable refers to.
     */
    var orphanFades: nat
    /** The keypad pipeline is subscribed (keypressDisposable live). */
    var subscribed: bool
    /** The text on the OLED; the empty string when it has been cleared. */
    var shown: string
    /** The numbers emitted on answerQueryNumbers, in order. */
    var published: seq<int>

    function Current(): Entry
      reads this, displayBuffer
    {
      Entry(displayBuffer[..], currentPos)
    }

    /** Input is only enabled while the buffer has room, so the keypad never makes the buffer roll over. */
    ghost predicate Valid()
      reads this, displayBuffer
    {
      displayBuffer.Length == 4 && WellFormed(Current()) && (inputEnabled ==> currentPos < 3)
    }

    constructor ()
      ensures Valid() && Current() == Blank() && inputEnabled && fadingNumber
      ensures !subscribed && !fadeScheduled && orphanFades == 0 && shown == "" && published == []
      ensures fresh(displayBuffer)
    {
      displayBuffer := new char[4](_ => BLANK);
      currentPos := -1;
      inputEnabled := true;
      fadingNumber := true;
      fadeScheduled := false;
      orphanFades := 0;
      subscribed := false;
      shown := "";
      published := [];
    }

    /** resetBuffer: every slot blank, no position. */
    method ResetBuffer()
      requires displayBuffer.Length == 4
      modifies displayBuffer, this`currentPos
      ensures Current() == Blank()
    {
      displayBuffer[0] := BLANK;
      displayBuffer[1] := BLANK;
      displayBuffer[2] := BLANK;
      displayBuffer[3] := BLANK;
      currentPos := -1;
    }

    /** clearDisplay: the buffer is reset; the OLED is blanked unless a number is fading. */
    method ClearDisplay()
      requires displayBuffer.Length == 4
      modifies displayBuffer, this`currentPos, this`shown
      ensures Current() == Blank()
      ensures shown == if fadingNumber then old(shown) else ""
    {
      if !fadingNumber {
        shown := "";
      }
      ResetBuffer();
    }

    /** displayNumber: the number replaces whatever was shown. */
    method DisplayNumber(n: int)
      requires Valid()
      modifies displayBuffer, this`currentPos, this`shown
      ensures Valid() && Current() == Blank() && shown == IntToString(n)
    {
      ClearDisplay();
      shown := IntToString(n);
    }

    /**
     * addToDisplay: a key while a number is fading clears the buffer first;
     * the character is then typed into the buffer and the buffer is shown;
     * the fourth slot disables input and publishes the number, if the four
     * characters spell one.
     */
    method AddToDisplay(c: char)
      requires Valid()
      modifies displayBuffer, this`currentPos, this`shown, this`fadingNumber, this`fadeScheduled, this`inputEnabled, this`published
      decreases if currentPos + 1 < 4 then 0 else 1
      ensures Valid()
      ensures Current() == Type(if old(fadingNumber) then Blank() else old(Current()), c)
      ensures !fadingNumber && fadeScheduled == (old(fadeScheduled) && !old(fadingNumber))
      ensures shown == displayBuffer[..]
      ensures inputEnabled == (old(inputEnabled) && currentPos < 3)
      ensures published == old(published) + Publish(Current())
    {
      if fadingNumber {
        fadingNumber := false;
        fadeScheduled := false;
        ClearDisplay();
      }
      if currentPos + 1 < displayBuffer.Length {
        currentPos := currentPos + 1;
      } else {
        ClearDisplay();
        AddToDisplay(c);
        return;
      }
      displayBuffer[currentPos] := c;
      shown := displayBuffer[..];
      if currentPos == displayBuffer.Length - 1 {
        inputEnabled := false;
        var n := JavaParseInt(displayBuffer[..]);
        if n.Some? {
          published := published + [n.value];
        }
      }
    }

    /**
     * enableUserInput: with fade the buffer is reset and a new fade timer
     * starts, and a timer fadeDisposable still held becomes an orphan;
     * without fade, the display is cleared.
     */
    method EnableUserInput(fade: bool)
      requires Valid()
      modifies displayBuffer, this`currentPos, this`shown, this`fadingNumber, this`fadeScheduled, this`orphanFades,
               this`inputEnabled, this`subscribed
      ensures Valid() && Current() == Blank() && inputEnabled && subscribed
      ensures fadingNumber == (fade || old(fadingNumber)) && fadeScheduled == (fade || old(fadeScheduled))
      ensures orphanFades == old(orphanFades) + (if fade && old(fadeScheduled) then 1 else 0)
      ensures shown == if fade || old(fadingNumber) then old(shown) else ""
    {
      if fade {
        fadingNumber := true;
        ResetBuffer();
        if fadeScheduled {
          orphanFades := orphanFades + 1;
        }
        fadeScheduled := true;
      } else {
        ClearDisplay();
      }
      inputEnabled := true;
      subscribed := true;
    }

    /** blockUserInput: no fade and no input; only the timer fadeDisposable refers to is cancelled. */
    method BlockUserInput()
      requires Valid()
      modifies this`fadingNumber, this`fadeScheduled, this`inputEnabled, this`subscribed
      ensures Valid() && !fadingNumber && !fadeScheduled && !inputEnabled && !subscribed
      ensures orphanFades == old(orphanFades)
    {
      fadingNumber := false;
      fadeScheduled := false;
      inputEnabled := false;
      subscribed := false;
    }

    /**
     * The oldest pending fade timer fires: an orphan before the one
     * fadeDisposable refers to. Whichever it is, the number stops fading and
     * the display is cleared, typed digits included.
     */
    method FadeElapsed()
      requires Valid()
      modifies displayBuffer, this`currentPos, this`shown, this`fadingNumber, this`fadeScheduled, this`orphanFades
      ensures Valid()
      ensures old(orphanFades) > 0 || old(fadeScheduled) ==> !fadingNumber && Current() == Blank() && shown == ""
      ensures old(orphanFades) > 0 ==> orphanFades == old(orphanFades) - 1 && fadeScheduled == old(fadeScheduled)
      ensures old(orphanFades) == 0 ==> orphanFades == 0 && !fadeScheduled
      ensures old(orphanFades) == 0 && !old(fadeScheduled) ==>
                Current() == old(Current()) && shown == old(shown) && fadingNumber == old(fadingNumber)
    {
      if orphanFades > 0 || fadeScheduled {
        if orphanFades > 0 {
          orphanFades := orphanFades - 1;
        } else {
          fadeScheduled := false;
        }
        fadingNumber := false;
        ClearDisplay();
      }
    }

    /** Three seconds without a key: the subscribed pipeline errors, clears the display and resubscribes. */
    method Timeout()
      requires Valid()
      modifies displayBuffer, this`currentPos, this`shown
      ensures Valid()
      ensures subscribed ==> Current() == Blank() && shown == (if fadingNumber then old(shown) else "")
      ensures !subscribed ==> Current() == old(Current()) && shown == old(shown)
    {
      if subscribed {
        ClearDisplay();
      }
    }

    /**
     * An input event through the keypad pipeline: only the release of a
     * number key is seen; one arriving while input is disabled completes the
     * pipeline (takeWhile), any other is typed. A typed key never meets a
     * full buffer.
     */
    method KeyEvent(eventType: int, value: int, code: int)
      requires Valid()
      modifies displayBuffer, this`currentPos, this`shown, this`fadingNumber, this`fadeScheduled, this`inputEnabled, this`published, this`subscribed
      ensures Valid()
      ensures var seen := old(subscribed) && eventType == EV_KEY && value == 0 && KeyCodeIsNumber(code);
              && (!seen ==> Current() == old(Current()) && published == old(published) && subscribed == old(subscribed))
              && (seen && !old(inputEnabled) ==> !subscribed && Current() == old(Current()) && published == old(published))
              && (seen && old(inputEnabled) ==>
                    && subscribed
                    && Current() == Type(if old(fadingNumber) then Blank() else old(Current()), CharFromKeycode(code))
                    && (old(fadingNumber) || currentPos == old(currentPos) + 1)
                    && published == old(published) + Publish(Current()))
    {
      if subscribed && eventType == EV_KEY && value == 0 && KeyCodeIsNumber(code) {
        if !inputEnabled {
          subscribed := false;
        } else {
          AddToDisplay(CharFromKeycode(code));
        }
      }
    }

    /**
     * enableUserInput(true) twice, then blockUserInput: the first fade timer
     * is still pending. Once input is enabled again and a digit typed, that
     * timer fires and wipes the digit.
     */
    static method StaleFadeWipesDigit() returns (typed: Entry, afterFade: Entry)
      ensures typed.pos == 0 && |typed.slots| == 4 && typed.slots[0] == '7'
      ensures afterFade == Blank()
    {
      var io := new PssIO();
      io.EnableUserInput(true);
      io.EnableUserInput(true);
      io.BlockUserInput();
      assert io.orphanFades == 1;
      io.EnableUserInput(false);
      io.AddToDisplay('7');
      typed := io.Current();
      io.FadeElapsed();
      afterFade := io.Current();
    }
  }
}
