/** The password-strength meter shown under the password field of both
    sign-up screens (`getStrength`). */
module Strength {
  import opened Js
  import opened Patterns

  /** The five outcomes of the meter, weakest first. */
  datatype Level = Empty | TooShort | Weak | Medium | Strong {

    /** The text the meter shows. */
    function Label(): string {
      match this
      case Empty => ""
      case TooShort => "Too Short"
      case Weak => "Weak"
      case Medium => "Medium"
      case Strong => "Strong"
    }

    function Color(): string {
      match this
      case Empty => "transparent"
      case TooShort => "#9CA3AF"
      case Weak => "#DC2626"
      case Medium => "#D97706"
      case Strong => "#059669"
    }

    function Rank(): nat {
      match this
      case Empty => 0
      case TooShort => 1
      case Weak => 2
      case Medium => 3
      case Strong => 4
    }
  }

  /** `getStrength(pw)`: the first rule that fires, tried from the top.
      The thresholds are on `pw.length`, in UTF-16 code units. */
  function GetStrength(pw: string): Level {
    if Length(pw) == 0 then Empty
    else if Length(pw) >= 10 && HasLetter(pw) && HasDigit(pw) && HasSymbol(pw) then Strong
    else if Length(pw) >= 8 && HasLetter(pw) && HasDigit(pw) then Medium
    else if Length(pw) >= 6 then Weak
    else TooShort
  }

  /** Length alone decides the two lowest outcomes: the empty password shows
      no label, a `length` of one to five shows "Too Short", and six or more
      never do. */
  lemma StrengthByLength(pw: string)
    ensures GetStrength(pw).Label() == "" <==> pw == ""
    ensures GetStrength(pw).Label() == "Too Short" <==> 1 <= Length(pw) <= 5
    ensures Length(pw) >= 6 ==> GetStrength(pw).Rank() >= Weak.Rank()
  {
    LengthBounds(pw);
  }

  /** Three emoji have `length` six, so the meter calls them "Weak", not
      "Too Short", although they are three characters. */
  lemma EmojiCountTwice()
    ensures GetStrength("\U{1F600}\U{1F600}\U{1F600}") == Weak
  {
    var pw := "\U{1F600}\U{1F600}\U{1F600}";
    var one, two := pw[..1], pw[..2];
    assert one[..0] == [] && two[..1] == one && pw[..2] == two;
    assert Length(one) == 2;
    assert Length(two) == 4;
    assert Length(pw) == 6;
    assert !IsAsciiLetter(pw[0]) && !IsAsciiLetter(pw[1]) && !IsAsciiLetter(pw[2]);
  }

  /** What each upper label guarantees about the password's content, and
      that a password of length six or more lacking a letter or a digit is
      "Weak" however long it is. */
  lemma StrengthByContent(pw: string)
    ensures GetStrength(pw) == Strong <==> Length(pw) >= 10 && HasLetter(pw) && HasDigit(pw) && HasSymbol(pw)
    ensures GetStrength(pw) == Medium ==> Length(pw) >= 8 && HasLetter(pw) && HasDigit(pw)
    ensures Length(pw) >= 6 && !(HasLetter(pw) && HasDigit(pw)) ==> GetStrength(pw) == Weak
    ensures 6 <= Length(pw) < 8 ==> GetStrength(pw) == Weak
  {
  }

  lemma HasOnExtension(pw: string, more: string)
    ensures HasLetter(pw) ==> HasLetter(pw + more)
    ensures HasDigit(pw) ==> HasDigit(pw + more)
    ensures HasSymbol(pw) ==> HasSymbol(pw + more)
  {
    if HasLetter(pw) {
      var i :| 0 <= i < |pw| && IsAsciiLetter(pw[i]);
      assert (pw + more)[i] == pw[i];
    }
    if HasDigit(pw) {
      var i :| 0 <= i < |pw| && IsDigit(pw[i]);
      assert (pw + more)[i] == pw[i];
    }
    if HasSymbol(pw) {
      var i :| 0 <= i < |pw| && !IsAsciiLetter(pw[i]) && !IsDigit(pw[i]);
      assert (pw + more)[i] == pw[i];
    }
  }

  /** Typing more characters never lowers the meter. */
  lemma StrengthMonotone(pw: string, more: string)
    ensures GetStrength(pw).Rank() <= GetStrength(pw + more).Rank()
  {
    HasOnExtension(pw, more);
    LengthAppend(pw, more);
    LengthBounds(pw);
  }
}
