/**
 The names of keys: what is printed, what is accepted, and what an accepted name becomes. The
 letters, digits, function keys and numpad digits are families here; the source lists them one by one.
 */
module Keys {
  import opened Wrappers

  datatype Word =
    | Alt | CapsLock | Control | Meta | NumLock | Shift
    | Enter | Tab | Space
    | ArrowDown | ArrowLeft | ArrowRight | ArrowUp | End | Home | PageDown | PageUp
    | Escape | Backspace | Insert | Delete

  datatype Key =
    | Named(word: Word)
    | Function(number: nat)
    | Letter(letter: char)
    | Digit(digit: nat)
    | Numpad(digit: nat)
    | Raw(code: int)

  const I32_MAX := 0x7fff_ffff

  predicate IsKey(k: Key) {
    match k
    case Named(_) => true
    case Function(n) => 1 <= n <= 20
    case Letter(c) => 'A' <= c <= 'Z'
    case Digit(d) => d < 10
    case Numpad(d) => d < 10
    case Raw(code) => -I32_MAX - 1 <= code <= I32_MAX
  }

  // ---- decimals ---------------------------------------------------------------------------------

  predicate IsDigit(c: char) {
    '0' <= c <= '9'
  }

  predicate AllDigits(t: string) {
    forall i :: 0 <= i < |t| ==> IsDigit(t[i])
  }

  function DigitChar(d: nat): (c: char)
    requires d < 10
    ensures IsDigit(c) && c as int - '0' as int == d
  {
    '0' + d as char
  }

  function Decimal(n: nat): string {
    if n < 10 then [DigitChar(n)] else Decimal(n / 10) + [DigitChar(n % 10)]
  }

  function Integer(n: int): string {
    if n < 0 then "-" + Decimal(-n) else Decimal(n)
  }

  function Value(t: string): nat
    requires AllDigits(t)
  {
    if t == [] then 0 else 10 * Value(t[..|t| - 1]) + (t[|t| - 1] as int - '0' as int)
  }

  /** No digit could be dropped from the front. */
  predicate Shortest(t: string) {
    |t| == 1 || (|t| > 1 && t[0] != '0')
  }

  lemma {:induction false} ValueOfDecimal(n: nat)
    ensures AllDigits(Decimal(n)) && Shortest(Decimal(n)) && Value(Decimal(n)) == n
    ensures n > 0 ==> Decimal(n)[0] != '0'
  {
    if n >= 10 {
      ValueOfDecimal(n / 10);
      assert Decimal(n)[..|Decimal(n)| - 1] == Decimal(n / 10);
    } else {
      assert Decimal(n)[..0] == [];
    }
  }

  /** The shortest spelling of a number is the printed one. */
  lemma {:induction false} DecimalOfValue(t: string)
    requires AllDigits(t) && Shortest(t)
    ensures Decimal(Value(t)) == t
    ensures t[0] != '0' ==> Value(t) > 0
  {
    var front, d := t[..|t| - 1], t[|t| - 1] as int - '0' as int;
    assert t == front + [DigitChar(d)];
    if front != [] {
      DecimalOfValue(front);
      assert Value(t) / 10 == Value(front) && Value(t) % 10 == d;
    }
  }

  lemma {:induction false} LeadingZerosAreDropped(zeros: nat, t: string)
    requires AllDigits(t)
    ensures AllDigits(Zeros(zeros) + t) && Value(Zeros(zeros) + t) == Value(t)
    decreases |t|, zeros
  {
    var s := Zeros(zeros) + t;
    if t != [] {
      LeadingZerosAreDropped(zeros, t[..|t| - 1]);
      assert s[..|s| - 1] == Zeros(zeros) + t[..|t| - 1];
    } else if zeros > 0 {
      LeadingZerosAreDropped(zeros - 1, t);
      assert s[..|s| - 1] == Zeros(zeros - 1) + t;
    }
  }

  function Zeros(n: nat): (z: string)
    ensures |z| == n && forall i :: 0 <= i < n ==> z[i] == '0'
  {
    seq(n, _ => '0')
  }

  // ---- printing and parsing ----------------------------------------------------------------------

  function Spelling(w: Word): string {
    match w
    case Alt => "ALT"
    case CapsLock => "CAPSLOCK"
    case Control => "CTRL"
    case Meta => "META"
    case NumLock => "NUMLOCK"
    case Shift => "SHIFT"
    case Enter => "ENTER"
    case Tab => "TAB"
    case Space => "SPACE"
    case ArrowDown => "DOWN"
    case ArrowLeft => "LEFT"
    case ArrowRight => "RIGHT"
    case ArrowUp => "UP"
    case End => "END"
    case Home => "HOME"
    case PageDown => "PAGEDOWN"
    case PageUp => "PAGEUP"
    case Escape => "ESC"
    case Backspace => "BACKSPACE"
    case Insert => "INSERT"
    case Delete => "DELETE"
  }

  function ParseWord(s: string): Option<Word> {
    match s
    case "ALT" => Some(Alt)
    case "OPTION" => Some(Alt)
    case "CAPSLOCK" => Some(CapsLock)
    case "CTRL" => Some(Control)
    case "META" => Some(Meta)
    case "CMD" => Some(Meta)
    case "NUMLOCK" => Some(NumLock)
    case "SHIFT" => Some(Shift)
    case "ENTER" => Some(Enter)
    case "TAB" => Some(Tab)
    case "SPACE" => Some(Space)
    case "DOWN" => Some(ArrowDown)
    case "LEFT" => Some(ArrowLeft)
    case "RIGHT" => Some(ArrowRight)
    case "UP" => Some(ArrowUp)
    case "END" => Some(End)
    case "HOME" => Some(Home)
    case "PAGEDOWN" => Some(PageDown)
    case "PAGEUP" => Some(PageUp)
    case "ESC" => Some(Escape)
    case "BACKSPACE" => Some(Backspace)
    case "INSERT" => Some(Insert)
    case "DELETE" => Some(Delete)
    case _ => None
  }

  function Print(k: Key): string
    requires IsKey(k)
  {
    match k
    case Named(w) => Spelling(w)
    case Function(n) => "F" + Decimal(n)
    case Letter(c) => [c]
    case Digit(d) => [DigitChar(d)]
    case Numpad(d) => "NUMPAD" + [DigitChar(d)]
    case Raw(code) => "RAW(" + Integer(code) + ")"
  }

  function ParseFamily(s: string): Option<Key> {
    if |s| == 1 && 'A' <= s[0] <= 'Z' then Some(Letter(s[0]))
    else if |s| == 1 && IsDigit(s[0]) then Some(Digit(s[0] as int - '0' as int))
    else if |s| > 1 && s[0] == 'F' && AllDigits(s[1..]) && Shortest(s[1..]) && 1 <= Value(s[1..]) <= 20
    then Some(Function(Value(s[1..])))
    else if |s| == 7 && "NUMPAD" <= s && IsDigit(s[6]) then Some(Numpad(s[6] as int - '0' as int))
    else None
  }

  /** The digits between `RAW(` and `)`. */
  function RawDigits(s: string): Option<string> {
    if |s| > 5 && "RAW(" <= s && s[|s| - 1] == ')' && AllDigits(s[4..|s| - 1]) then Some(s[4..|s| - 1]) else None
  }

  function Parse(s: string): Option<Key> {
    match ParseWord(s)
    case Some(w) => Some(Named(w))
    case None =>
      match ParseFamily(s)
      case Some(k) => Some(k)
      case None =>
        match RawDigits(s)
        case Some(t) => if Value(t) <= I32_MAX then Some(Raw(Value(t))) else None
        case None => None
  }

  // ---- there and back ----------------------------------------------------------------------------

  lemma WordRoundTrip(w: Word)
    ensures ParseWord(Spelling(w)) == Some(w)
  {
  }

  /** No word looks like a member of a family or like a raw code. */
  lemma WordsAreWords(s: string)
    requires ParseWord(s).Some?
    ensures |s| > 1 && !IsDigit(s[|s| - 1]) && s[|s| - 1] != ')'
    ensures s == Spelling(ParseWord(s).value) <==> s != "OPTION" && s != "CMD"
  {
  }

  /** Every key of a family has one spelling, the printed one, and it is no raw code. */
  lemma FamilyRoundTrip(k: Key)
    requires IsKey(k) && !k.Named? && !k.Raw?
    ensures ParseFamily(Print(k)) == Some(k)
    ensures ParseWord(Print(k)).None?
  {
    if k.Function? {
      ValueOfDecimal(k.number);
      assert Print(k)[1..] == Decimal(k.number);
      assert IsDigit(Print(k)[|Print(k)| - 1]);
    }
    if ParseWord(Print(k)).Some? {
      WordsAreWords(Print(k));
    }
  }

  lemma FamilySpelling(s: string)
    requires ParseFamily(s).Some?
    ensures IsKey(ParseFamily(s).value) && !ParseFamily(s).value.Named? && !ParseFamily(s).value.Raw?
    ensures Print(ParseFamily(s).value) == s
  {
    match ParseFamily(s).value
    case Function(n) =>
      DecimalOfValue(s[1..]);
      assert s == "F" + s[1..];
    case Numpad(d) => assert s == "NUMPAD" + [s[6]];
    case _ =>
  }

  /** What is put in the brackets is read as a number if it is one that fits, and refused otherwise. */
  lemma RawParses(t: string)
    ensures Parse("RAW(" + t + ")") ==
      if t != [] && AllDigits(t) && Value(t) <= I32_MAX then Some(Raw(Value(t))) else None
  {
    var s := "RAW(" + t + ")";
    assert |s| == 5 + |t| && s[4..|s| - 1] == t && s[|s| - 1] == ')' && s[0] == 'R';
    if ParseWord(s).Some? {
      WordsAreWords(s);
    }
    assert "RAW(" <= s;
    assert ParseFamily(s).None?;
  }

  lemma RawRoundTrip(code: int)
    requires IsKey(Raw(code))
    ensures Parse(Print(Raw(code))) == if code < 0 then None else Some(Raw(code))
  {
    RawParses(Integer(code));
    if code < 0 {
      assert Integer(code)[0] == '-';
    } else {
      ValueOfDecimal(code);
    }
  }

  /** A key comes back from its printed name if and only if it is not a negative raw code. */
  lemma RoundTripIff(k: Key)
    requires IsKey(k)
    ensures Parse(Print(k)) == Some(k) <==> !(k.Raw? && k.code < 0)
    ensures Parse(Print(k)) == Some(k) || Parse(Print(k)) == None
  {
    match k
    case Named(w) => WordRoundTrip(w);
    case Raw(code) => RawRoundTrip(code);
    case _ => FamilyRoundTrip(k);
  }

  /** Whatever spelling is accepted, the key it becomes is a real one and prints to a name that gives it back. */
  lemma AcceptedKeysRoundTrip(s: string)
    requires Parse(s).Some?
    ensures IsKey(Parse(s).value) && Parse(Print(Parse(s).value)) == Parse(s)
  {
    if ParseWord(s).None? && ParseFamily(s).Some? {
      FamilySpelling(s);
    }
    RoundTripIff(Parse(s).value);
  }

  /** A raw code spelled with more digits than it takes. */
  predicate PaddedRaw(s: string) {
    RawDigits(s).Some? && !Shortest(RawDigits(s).value)
  }

  /** An accepted spelling is the printed one unless it is one of the two aliases or a padded raw code. */
  lemma SpellingIsPrintedIff(s: string)
    requires Parse(s).Some? && IsKey(Parse(s).value)
    ensures s == Print(Parse(s).value) <==> s != "OPTION" && s != "CMD" && !PaddedRaw(s)
  {
    if ParseWord(s).Some? {
      WordsAreWords(s);
    } else if ParseFamily(s).Some? {
      FamilySpelling(s);
      assert |s| > 1 ==> s[|s| - 1] == s[1..][|s| - 2] && IsDigit(s[|s| - 1]);
    } else {
      var t := RawDigits(s).value;
      assert s == "RAW(" + t + ")" && t != [];
      ValueOfDecimal(Value(t));
      if Shortest(t) {
        DecimalOfValue(t);
      }
    }
  }

  /** Two keys never print alike, the negative codes that cannot be read back included. */
  lemma PrintInjective(a: Key, b: Key)
    requires IsKey(a) && IsKey(b) && Print(a) == Print(b)
    ensures a == b
  {
    RoundTripIff(a);
    RoundTripIff(b);
    if a.Raw? && a.code < 0 {
      NegativeDigits(a.code);
      NegativeDigits(b.code);
    }
  }

  lemma NegativeDigits(code: int)
    requires IsKey(Raw(code)) && code < 0
    ensures var s := Print(Raw(code));
      |s| > 6 && AllDigits(s[5..|s| - 1]) && Value(s[5..|s| - 1]) == -code
  {
    ValueOfDecimal(-code);
    var s := Print(Raw(code));
    assert s[5..|s| - 1] == Decimal(-code);
  }
}
