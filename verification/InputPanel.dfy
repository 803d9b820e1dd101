/**
  The input panel: the validator that gates a new input string, and the
  submit and example-select handlers that hand a valid string to the
  controller and start a run.

  Strings are sequences of Unicode code points. The length limit is checked
  on the string's length in UTF-16 code units, as the browser counts it, and
  the blank test uses the set of characters the browser's trim removes.
*/
module InputPanel {
  import opened Options
  import opened Types
  import opened History
  import opened AlgorithmStateHook

  /** The longest accepted input, in UTF-16 code units. */
  const MaxInputLength: nat := 50

  /**
    The characters the browser's trim removes: the white space characters
    (tab, vertical tab, form feed, the byte order mark and the Unicode
    space separators) and the line terminators. All of them lie in the
    Basic Multilingual Plane, and none is a letter.
  */
  function IsJsWhitespace(ch: char): (b: bool)
    ensures b ==> ch as int <= 0xFFFF
    ensures 'a' <= ch <= 'z' || 'A' <= ch <= 'Z' ==> !b
  {
    var n := ch as int;
    || 0x09 <= n <= 0x0D || n == 0x20 || n == 0xA0 || n == 0x1680 || 0x2000 <= n <= 0x200A
    || n == 0x2028 || n == 0x2029 || n == 0x202F || n == 0x205F || n == 0x3000 || n == 0xFEFF
  }

  /** Every character of `s` is white space (true of the empty string). */
  predicate IsBlank(s: string)
  {
    forall i :: 0 <= i < |s| ==> IsJsWhitespace(s[i])
  }

  /** Every character of `s` at an index in [lo, hi) is white space. */
  predicate BlankBetween(s: string, lo: int, hi: int)
    requires 0 <= lo <= hi <= |s|
  {
    forall i :: lo <= i < hi ==> IsJsWhitespace(s[i])
  }

  /** `s` without its leading white space: what is removed is all white space, and what is kept starts with none. */
  function TrimStart(s: string): (r: string)
    ensures |r| <= |s| && r == s[|s| - |r|..]
    ensures BlankBetween(s, 0, |s| - |r|)
    ensures r == "" <==> IsBlank(s)
    ensures r != "" ==> !IsJsWhitespace(r[0])
  {
    if |s| > 0 && IsJsWhitespace(s[0]) then
      var r := TrimStart(s[1..]);
      assert BlankBetween(s, 0, |s| - |r|) by {
        forall k | 1 <= k < |s| - |r| ensures IsJsWhitespace(s[k]) {
          assert s[k] == s[1..][k - 1];
        }
      }
      assert IsBlank(s) <==> IsBlank(s[1..]) by {
        if IsBlank(s[1..]) {
          forall k | 1 <= k < |s| ensures IsJsWhitespace(s[k]) {
            assert s[k] == s[1..][k - 1];
          }
        }
      }
      r
    else s
  }

  /** `s` without its trailing white space: what is removed is all white space, and what is kept ends with none. */
  function TrimEnd(s: string): (r: string)
    ensures |r| <= |s| && r == s[..|r|]
    ensures BlankBetween(s, |r|, |s|)
    ensures r == "" <==> IsBlank(s)
    ensures r != "" ==> !IsJsWhitespace(r[|r| - 1])
  {
    if |s| > 0 && IsJsWhitespace(s[|s| - 1]) then
      var r := TrimEnd(s[..|s| - 1]);
      assert BlankBetween(s, |r|, |s|) by {
        forall k | |r| <= k < |s| - 1 ensures IsJsWhitespace(s[k]) {
          assert s[k] == s[..|s| - 1][k];
        }
      }
      assert IsBlank(s) <==> IsBlank(s[..|s| - 1]) by {
        if IsBlank(s[..|s| - 1]) {
          forall k | 0 <= k < |s| - 1 ensures IsJsWhitespace(s[k]) {
            assert s[k] == s[..|s| - 1][k];
          }
        }
      }
      r
    else s
  }

  /**
    `s` without leading and trailing white space: a slice of `s` with only
    white space before and after it, empty exactly when `s` is blank.
  */
  function Trim(s: string): (r: string)
    ensures exists i, j :: 0 <= i <= j <= |s| && r == s[i..j] && BlankBetween(s, 0, i) && BlankBetween(s, j, |s|)
    ensures r == "" <==> IsBlank(s)
    ensures r != "" ==> !IsJsWhitespace(r[0]) && !IsJsWhitespace(r[|r| - 1])
  {
    var t := TrimStart(s);
    var r := TrimEnd(t);
    TrimOfTrimmedStart(s, t, r);
    r
  }

  /** Trimming the end of the string whose start is already trimmed trims both ends of the original. */
  lemma TrimOfTrimmedStart(s: string, t: string, r: string)
    requires |t| <= |s| && t == s[|s| - |t|..] && BlankBetween(s, 0, |s| - |t|)
    requires t == "" <==> IsBlank(s)
    requires t != "" ==> !IsJsWhitespace(t[0])
    requires |r| <= |t| && r == t[..|r|] && BlankBetween(t, |r|, |t|)
    requires r == "" <==> IsBlank(t)
    requires r != "" ==> !IsJsWhitespace(r[|r| - 1])
    ensures 0 <= |s| - |t| <= |s| - |t| + |r| <= |s| && r == s[|s| - |t|..|s| - |t| + |r|]
    ensures BlankBetween(s, 0, |s| - |t|) && BlankBetween(s, |s| - |t| + |r|, |s|)
    ensures r == "" <==> IsBlank(s)
    ensures r != "" ==> !IsJsWhitespace(r[0]) && !IsJsWhitespace(r[|r| - 1])
  {
    var i := |s| - |t|;
    var j := i + |r|;
    assert BlankBetween(s, j, |s|) by {
      forall k | j <= k < |s| ensures IsJsWhitespace(s[k]) {
        assert s[k] == t[k - i];
      }
    }
    if r != "" {
      assert r[0] == t[0];
    }
  }

  /** The number of UTF-16 code units of `s`: two for a code point above U+FFFF, one otherwise. */
  function Utf16Length(s: string): (n: nat)
    ensures |s| <= n <= 2 * |s|
  {
    if s == [] then 0 else (if s[0] as int > 0xFFFF then 2 else 1) + Utf16Length(s[1..])
  }

  /** A string of Basic Multilingual Plane characters takes one code unit per character. */
  lemma {:induction false} Utf16LengthOfBmp(s: string)
    requires forall i :: 0 <= i < |s| ==> s[i] as int <= 0xFFFF
    ensures Utf16Length(s) == |s|
  {
    if s != [] {
      assert forall i :: 0 <= i < |s[1..]| ==> s[1..][i] == s[i + 1];
      Utf16LengthOfBmp(s[1..]);
    }
  }

  /** A string of characters above U+FFFF takes two code units per character. */
  lemma {:induction false} Utf16LengthOfAstral(s: string)
    requires forall i :: 0 <= i < |s| ==> s[i] as int > 0xFFFF
    ensures Utf16Length(s) == 2 * |s|
  {
    if s != [] {
      assert forall i :: 0 <= i < |s[1..]| ==> s[1..][i] == s[i + 1];
      Utf16LengthOfAstral(s[1..]);
    }
  }

  /**
    The pattern ^[a-z]+$: one or more lowercase ASCII letters and nothing
    else, so nothing at either end for trim to remove.
  */
  function IsLowercaseWord(s: string): (b: bool)
    ensures b ==> |s| > 0 && !IsJsWhitespace(s[0]) && !IsJsWhitespace(s[|s| - 1])
  {
    |s| > 0 && forall i :: 0 <= i < |s| ==> 'a' as int <= s[i] as int <= 'z' as int
  }

  datatype InputError = Empty | TooLong | NotLowercase

  /** The message shown for each error. */
  function ErrorMessage(e: InputError): (msg: string)
    ensures msg != ""
  {
    match e
    case Empty => "输入不能为空！"
    case TooLong => "字符串长度不能超过50个字符！"
    case NotLowercase => "字符串只能包含小写字母！"
  }

  /** The error text the panel shows after a validation: empty when the input passed. */
  function ErrorText(r: Option<InputError>): (msg: string)
    ensures msg == "" <==> r == None
  {
    match r
    case None => ""
    case Some(e) => ErrorMessage(e)
  }

  /**
    The checks in their fixed order, the first failure deciding the error:
    blank, then too long, then not lowercase letters only.
  */
  function ValidateInput(value: string): (r: Option<InputError>)
    ensures r == Some(Empty) <==> IsBlank(value)
    ensures r == Some(TooLong) <==> !IsBlank(value) && Utf16Length(value) > MaxInputLength
    ensures r == Some(NotLowercase) <==>
              !IsBlank(value) && Utf16Length(value) <= MaxInputLength && !IsLowercaseWord(value)
  {
    if Trim(value) == "" then Some(Empty)
    else if Utf16Length(value) > MaxInputLength then Some(TooLong)
    else if !IsLowercaseWord(value) then Some(NotLowercase)
    else None
  }

  /**
    The order of the checks decides the error: sixty spaces are blank
    rather than too long, sixty capital letters are too long rather than
    not lowercase, and a letter string with surrounding spaces is rejected
    for its spaces.
  */
  lemma CheckOrderExamples()
    ensures ValidateInput(seq(60, _ => ' ')) == Some(Empty)
    ensures ValidateInput(seq(60, _ => 'A')) == Some(TooLong)
    ensures ValidateInput(" abc ") == Some(NotLowercase)
  {
    assert !IsBlank(" abc ") by { assert !IsJsWhitespace(" abc "[1]); }
    assert !IsLowercaseWord(" abc ") by { assert " abc "[0] == ' '; }
  }

  /**
    The limit counts UTF-16 code units: twenty-six characters from outside
    the Basic Multilingual Plane take fifty-two units and are too long.
  */
  lemma LengthCountsCodeUnits()
    ensures var e := seq(26, _ => '\U{1F600}');
            |e| == 26 && Utf16Length(e) == 52 && ValidateInput(e) == Some(TooLong)
  {
    var e := seq(26, _ => '\U{1F600}');
    Utf16LengthOfAstral(e);
    assert !IsBlank(e) by { assert !IsJsWhitespace(e[0]); }
  }

  /** The panel's own state: the text in the field and the error on display. */
  class Panel {
    var input: string
    var error: string

    /** The panel starts with a given string (in the running program a random one) and no error. */
    constructor (initial: string)
      ensures input == initial && error == ""
    {
      input := initial;
      error := "";
    }

    /** Validates a string and shows the outcome: the error's message, or no error. */
    method Validate(value: string) returns (ok: bool)
      modifies this
      ensures ok <==> ValidateInput(value) == None
      ensures error == ErrorText(ValidateInput(value))
      ensures input == old(input)
    {
      var r := ValidateInput(value);
      error := ErrorText(r);
      ok := r == None;
    }

    /** Typing in the field: the text is taken; an error on display is re-checked against it. */
    method HandleChange(value: string)
      modifies this
      ensures input == value
      ensures error == if old(error) != "" then ErrorText(ValidateInput(value)) else old(error)
    {
      input := value;
      if error != "" {
        var _ := Validate(value);
      }
    }

    /**
      Submitting the form: a valid text is handed to the controller, which
      takes it and resets, and then the start callback runs. That callback
      came with the render before the submit, so the run it starts traces
      the input the controller held then. An invalid text only shows its
      error.
    */
    method HandleSubmit(c: Controller) returns (started: bool)
      requires c.Valid()
      modifies this, c
      ensures c.Valid()
      ensures started <==> ValidateInput(input) == None
      ensures input == old(input) && error == ErrorText(ValidateInput(input))
      ensures started ==> && c.inputString == input
                          && c.tracedInput == old(c.inputString) && c.stateHistory == Trace(old(c.inputString))
                          && c.currentStateIndex == 0 && c.isRunning && !c.isPlaying
                          && c.playbackSpeed == old(c.playbackSpeed)
      ensures !started ==> unchanged(c)
    {
      var renderedInput := c.inputString;
      started := Validate(input);
      if started {
        c.HandleInputChange(input);
        c.StartAlgorithm(renderedInput);
      }
    }

    /**
      Submitting as evidently intended: the run starts on the submitted
      text, as a start callback created after the input changed would.
      The run shown then belongs to the text shown.
    */
    method HandleSubmitIntended(c: Controller) returns (started: bool)
      requires c.Valid()
      modifies this, c
      ensures c.Valid()
      ensures started <==> ValidateInput(input) == None
      ensures input == old(input) && error == ErrorText(ValidateInput(input))
      ensures started ==> && c.inputString == input && c.tracedInput == input && c.stateHistory == Trace(input)
                          && c.currentStateIndex == 0 && c.isRunning && !c.isPlaying
                          && c.playbackSpeed == old(c.playbackSpeed)
                          && c.CurrentState() == InitialSnapshot(input)
      ensures !started ==> unchanged(c)
    {
      started := Validate(input);
      if started {
        c.HandleInputChange(input);
        c.StartAlgorithm(c.inputString);
      }
    }

    /**
      Choosing an example: the example becomes the text and is then handled
      like a submit, the delayed start callback again being the one from the
      render before the choice.
    */
    method HandleExampleSelect(c: Controller, value: string) returns (started: bool)
      requires c.Valid()
      modifies this, c
      ensures c.Valid()
      ensures input == value && (started <==> ValidateInput(value) == None)
      ensures error == ErrorText(ValidateInput(value))
      ensures started ==> && c.inputString == value
                          && c.tracedInput == old(c.inputString) && c.stateHistory == Trace(old(c.inputString))
                          && c.currentStateIndex == 0 && c.isRunning && !c.isPlaying
                          && c.playbackSpeed == old(c.playbackSpeed)
      ensures !started ==> unchanged(c)
    {
      input := value;
      started := HandleSubmit(c);
    }
  }

  /**
    Submitting a valid text to a new controller, which holds InitialInput:
    the text is shown, but the run shown is the trace of InitialInput, which
    is not the trace of the text unless the text is InitialInput itself.
  */
  method StaleSubmitExample(text: string) returns (shown: string, traced: string, history: seq<AlgorithmState>)
    requires IsLowercaseWord(text) && |text| <= MaxInputLength
    ensures shown == text && traced == InitialInput && history == Trace(traced)
    ensures traced != shown ==> history != Trace(shown) && history[0].inputString == traced
  {
    var c := new Controller();
    traced := c.inputString;
    var p := new Panel(text);
    AcceptedExactly(text);
    var started := p.HandleSubmit(c);
    shown, history := c.inputString, c.stateHistory;
  }


  /**
    A string passes exactly when it is 1 to 50 lowercase letters; such a
    string takes one UTF-16 code unit per letter and has nothing for trim
    to remove.
  */
  lemma AcceptedExactly(value: string)
    ensures ValidateInput(value) == None <==> IsLowercaseWord(value) && |value| <= MaxInputLength
    ensures ValidateInput(value) == None ==> Utf16Length(value) == |value| && Trim(value) == value
  {
    if IsLowercaseWord(value) {
      LowercaseWordShape(value);
    }
  }

  /** A lowercase word has no white space to trim and takes one code unit per letter. */
  lemma LowercaseWordShape(w: string)
    requires IsLowercaseWord(w)
    ensures !IsBlank(w) && Trim(w) == w && Utf16Length(w) == |w|
  {
    assert forall i :: 0 <= i < |w| ==> w[i] as int <= 0xFFFF;
    Utf16LengthOfBmp(w);
    var first := w[0];
    assert !IsJsWhitespace(first);
    assert !IsJsWhitespace(w[|w| - 1]);
  }
}
