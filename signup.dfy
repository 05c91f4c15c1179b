/** The signup screen of the banking app: two rows of PIN boxes (the PIN and
    its confirmation) with automatic focus movement, and the ordered checks
    run when the user presses "Create Account". */
module Signup {

  /** Number of boxes in each PIN row. */
  const PinLength: nat := 5

  /** The name the platform gives the delete-backward key. */
  const Backspace: string := "Backspace"

  // ---------------------------------------------------------------------
  // PIN rows as values
  // ---------------------------------------------------------------------

  /** Every character lies in the Basic Multilingual Plane, so UTF-16 needs
      one code unit for it. */
  ghost predicate AllBmp(s: string)
  {
    forall i :: 0 <= i < |s| ==> s[i] as int < 0x1_0000
  }

  /** Every box of the row is empty. */
  ghost predicate AllEmpty(row: seq<string>)
  {
    forall i :: 0 <= i < |row| ==> row[i] == ""
  }

  /** Length of a string as JavaScript's `length` counts it: in UTF-16 code
      units, so a character outside the Basic Multilingual Plane counts 2. */
  function Utf16Length(s: string): (r: nat)
    ensures |s| <= r <= 2 * |s|
  {
    if s == [] then 0
    else (if s[0] as int < 0x1_0000 then 1 else 2) + Utf16Length(s[1..])
  }

  /** The UTF-16 length equals the character count exactly when every
      character is in the Basic Multilingual Plane. */
  lemma {:induction false} Utf16LengthBmp(s: string)
    ensures Utf16Length(s) == |s| <==> AllBmp(s)
  {
    if s != [] {
      Utf16LengthBmp(s[1..]);
      assert AllBmp(s) <==> s[0] as int < 0x1_0000 && AllBmp(s[1..]) by {
        if s[0] as int < 0x1_0000 && AllBmp(s[1..]) {
          forall i | 0 <= i < |s| ensures s[i] as int < 0x1_0000 {
            if i > 0 { assert s[i] == s[1..][i - 1]; }
          }
        }
      }
    }
  }

  /** UTF-16 length adds up over concatenation. */
  lemma {:induction false} Utf16LengthAppend(a: string, b: string)
    ensures Utf16Length(a + b) == Utf16Length(a) + Utf16Length(b)
  {
    if a == [] {
      assert a + b == b;
    } else {
      assert (a + b)[0] == a[0] && (a + b)[1..] == a[1..] + b;
      Utf16LengthAppend(a[1..], b);
    }
  }

  /** A string of at most one UTF-16 unit is empty or one BMP character, so
      its character count and its UTF-16 length agree. */
  lemma OneUnitBox(s: string)
    requires Utf16Length(s) <= 1
    ensures |s| <= 1 && Utf16Length(s) == |s|
  {
  }

  /** Every box holds at most one UTF-16 unit (the text fields are limited
      to one unit by the platform's `maxLength`). */
  ghost predicate OneCharCells(row: seq<string>)
  {
    forall i :: 0 <= i < |row| ==> Utf16Length(row[i]) <= 1
  }

  /** Every box holds something. */
  ghost predicate AllFilled(row: seq<string>)
  {
    forall i :: 0 <= i < |row| ==> row[i] != ""
  }

  /** The shape every PIN row keeps: five boxes of at most one UTF-16 unit. */
  ghost predicate WellFormedRow(row: seq<string>)
  {
    |row| == PinLength && OneCharCells(row)
  }

  /** The row's contents glued together in box order, as `join("")` does;
      empty boxes contribute nothing. */
  function Join(row: seq<string>): (r: string)
    ensures r == "" <==> AllEmpty(row)
  {
    if row == [] then "" else row[0] + Join(row[1..])
  }

  /** The joined text's JavaScript length is never more than the number of
      boxes, and equals it precisely when every box is filled. */
  lemma {:induction false} JoinLength(row: seq<string>)
    requires OneCharCells(row)
    ensures Utf16Length(Join(row)) <= |row|
    ensures Utf16Length(Join(row)) == |row| <==> AllFilled(row)
  {
    if row != [] {
      var tail := row[1..];
      assert OneCharCells(tail) by {
        forall i | 0 <= i < |tail| ensures Utf16Length(tail[i]) <= 1 {
          assert tail[i] == row[i + 1];
        }
      }
      JoinLength(tail);
      Utf16LengthAppend(row[0], Join(tail));
      OneUnitBox(row[0]);
      assert AllFilled(row) <==> row[0] != "" && AllFilled(tail) by {
        if row[0] != "" && AllFilled(tail) {
          forall i | 0 <= i < |row| ensures row[i] != "" {
            if i > 0 { assert row[i] == tail[i - 1]; }
          }
        }
        if AllFilled(row) {
          forall i | 0 <= i < |tail| ensures tail[i] != "" {
            assert tail[i] == row[i + 1];
          }
        }
      }
    }
  }

  /** Dropping the first box keeps a row's box-wise properties. */
  lemma TailRow(row: seq<string>)
    requires row != []
    ensures OneCharCells(row) ==> OneCharCells(row[1..])
    ensures AllFilled(row) ==> AllFilled(row[1..])
  {
    var tail := row[1..];
    forall i | 0 <= i < |tail| ensures tail[i] == row[i + 1] { }
  }

  /** Two strings that each start with a one-character prefix are equal
      exactly when the prefixes and the rests are. */
  lemma HeadSplit(x: string, y: string, s: string, t: string)
    requires |x| == 1 && |y| == 1
    ensures x + s == y + t <==> x == y && s == t
  {
    if x + s == y + t {
      assert x == (x + s)[..1] && y == (y + t)[..1];
      assert s == (x + s)[1..] && t == (y + t)[1..];
    }
  }

  /** When one row is completely filled, its joined text equals the joined
      text of another row of the same length exactly when the two rows agree
      box by box: comparing joined strings is comparing the rows. */
  lemma {:induction false} JoinEqualIff(a: seq<string>, b: seq<string>)
    requires |a| == |b|
    requires OneCharCells(a) && OneCharCells(b)
    requires AllFilled(a)
    ensures Join(a) == Join(b) <==> a == b
  {
    if a != [] {
      var ta, tb := a[1..], b[1..];
      TailRow(a);
      TailRow(b);
      JoinEqualIff(ta, tb);
      OneUnitBox(a[0]);
      OneUnitBox(b[0]);
      assert a[0] != "";
      assert a == b <==> a[0] == b[0] && ta == tb by {
        assert a == [a[0]] + ta && b == [b[0]] + tb;
      }
      if b[0] == "" {
        JoinLength(ta);
        JoinLength(tb);
        assert Join(b) == b[0] + Join(tb) == Join(tb);
        assert Join(a) == a[0] + Join(ta);
        Utf16LengthAppend(a[0], Join(ta));
        assert Utf16Length(Join(b)) < Utf16Length(Join(a));
      } else {
        HeadSplit(a[0], b[0], Join(ta), Join(tb));
      }
    }
  }

  // ---------------------------------------------------------------------
  // Focus movement
  // ---------------------------------------------------------------------

  /** Focus after a change event delivering `value` to box `index`: a
      non-empty value moves focus to the next box, unless the box is the
      last one. */
  function NextFocusOnChange(focus: nat, index: nat, value: string): (f: nat)
    requires focus < PinLength && index < PinLength
    ensures f < PinLength
    ensures value != "" && index < PinLength - 1 ==> f == index + 1
    ensures value == "" || index == PinLength - 1 ==> f == focus
  {
    // the handler compares against the literal 4, not PinLength - 1
    if value != "" && index < 4 then index + 1 else focus
  }

  /** Focus after a key press on box `index` of `row`: Backspace on an
      already empty box other than the first moves focus one box back;
      every other key press leaves focus where it is. */
  function NextFocusOnKey(row: seq<string>, focus: nat, key: string, index: nat): (f: nat)
    requires |row| == PinLength && focus < PinLength && index < PinLength
    ensures f < PinLength
    ensures key == Backspace && index > 0 && row[index] == "" ==> f == index - 1
    ensures key != Backspace || index == 0 || row[index] != "" ==> f == focus
  {
    if key == Backspace && index > 0 && row[index] == "" then index - 1 else focus
  }

  // ---------------------------------------------------------------------
  // Submit validation
  // ---------------------------------------------------------------------

  /** Outcome of pressing "Create Account": the first check that fails, or
      acceptance. */
  datatype Verdict =
    | FieldsMissing
    | PinIncomplete
    | PinsDiffer
    | TermsNotAccepted
    | Accepted
  {
    /** The text of the error alert shown for a failed check. */
    function Message(): (m: string)
      requires !Accepted?
      ensures m != ""
    {
      match this
      case FieldsMissing => "Please fill in all fields"
      case PinIncomplete => "Please enter a 5-digit PIN"
      case PinsDiffer => "PINs do not match"
      case TermsNotAccepted => "Please agree to the terms and conditions"
    }
  }

  /** Each failed check shows its own alert text. */
  lemma MessagesDistinct(v: Verdict, w: Verdict)
    requires !v.Accepted? && !w.Accepted? && v != w
    ensures v.Message() != w.Message()
  {
  }

  /** The checks of the submit handler, in the order it runs them; the first
      that fails decides the verdict. */
  function Validate(fullName: string, email: string, phoneNumber: string,
                    pin: seq<string>, confirmPin: seq<string>, agreeToTerms: bool): (r: Verdict)
    ensures r == Accepted ==> Utf16Length(Join(pin)) == 5 && Utf16Length(Join(confirmPin)) == 5
    ensures r == Accepted <==> fullName != "" && email != "" && phoneNumber != ""
                               && Utf16Length(Join(pin)) == 5 && Join(pin) == Join(confirmPin)
                               && agreeToTerms
  {
    if fullName == "" || email == "" || phoneNumber == "" then FieldsMissing
    else if Utf16Length(Join(pin)) != 5 then PinIncomplete
    else if Join(pin) != Join(confirmPin) then PinsDiffer
    else if !agreeToTerms then TermsNotAccepted
    else Accepted
  }

  /** The verdict described box by box. On well-formed rows each verdict
      holds exactly when the checks before it pass and its own fails; in
      particular signup is accepted exactly when all three text fields are
      filled, every box of both rows is filled, the rows agree box by box and
      the terms are accepted. */
  lemma ValidateOnCells(fullName: string, email: string, phoneNumber: string,
                        pin: seq<string>, confirmPin: seq<string>, agreeToTerms: bool)
    requires WellFormedRow(pin) && WellFormedRow(confirmPin)
    ensures var v := Validate(fullName, email, phoneNumber, pin, confirmPin, agreeToTerms);
            var filled := fullName != "" && email != "" && phoneNumber != "";
            && (v == FieldsMissing <==> !filled)
            && (v == PinIncomplete <==> filled && !AllFilled(pin))
            && (v == PinsDiffer <==> filled && AllFilled(pin) && pin != confirmPin)
            && (v == TermsNotAccepted <==> filled && AllFilled(pin) && pin == confirmPin && !agreeToTerms)
            && (v == Accepted <==> filled && AllFilled(pin) && AllFilled(confirmPin)
                                   && pin == confirmPin && agreeToTerms)
  {
    JoinLength(pin);
    if AllFilled(pin) {
      JoinEqualIff(pin, confirmPin);
    }
  }

  /** Emptying any box of either row makes signup impossible, whatever the
      other inputs are. */
  lemma ClearedBoxBlocksSignup(fullName: string, email: string, phoneNumber: string,
                               pin: seq<string>, confirmPin: seq<string>, agreeToTerms: bool,
                               index: nat)
    requires WellFormedRow(pin) && WellFormedRow(confirmPin) && index < PinLength
    ensures Validate(fullName, email, phoneNumber, pin[index := ""], confirmPin, agreeToTerms) != Accepted
    ensures Validate(fullName, email, phoneNumber, pin, confirmPin[index := ""], agreeToTerms) != Accepted
  {
    assert WellFormedRow(pin[index := ""]) && pin[index := ""][index] == "";
    assert WellFormedRow(confirmPin[index := ""]) && confirmPin[index := ""][index] == "";
    ValidateOnCells(fullName, email, phoneNumber, pin[index := ""], confirmPin, agreeToTerms);
    ValidateOnCells(fullName, email, phoneNumber, pin, confirmPin[index := ""], agreeToTerms);
  }

  // ---------------------------------------------------------------------
  // The screen's state
  // ---------------------------------------------------------------------

  /** The signup screen's local state. Focus is kept as one box index per
      PIN row. */
  class SignupScreen {
    var fullName: string
    var email: string
    var phoneNumber: string
    var pin: seq<string>
    var confirmPin: seq<string>
    var pinFocus: nat
    var confirmFocus: nat
    var isLoading: bool
    var agreeToTerms: bool

    ghost predicate Valid()
      reads this
    {
      WellFormedRow(pin) && WellFormedRow(confirmPin)
      && pinFocus < PinLength && confirmFocus < PinLength
    }

    /** A fresh screen: empty fields, five empty boxes per row, not loading,
        terms not accepted. */
    constructor ()
      ensures Valid()
      ensures fullName == "" && email == "" && phoneNumber == ""
      ensures pin == ["", "", "", "", ""] && confirmPin == ["", "", "", "", ""]
      ensures pinFocus == 0 && confirmFocus == 0
      ensures !isLoading && !agreeToTerms
    {
      fullName, email, phoneNumber := "", "", "";
      pin := ["", "", "", "", ""];
      confirmPin := ["", "", "", "", ""];
      pinFocus, confirmFocus := 0, 0;
      isLoading, agreeToTerms := false, false;
    }

    /** A change event on box `index` of the PIN row (or of the confirmation
        row when `isConfirm`): the box takes `value`, nothing else in either
        row changes, and focus of that row moves on as NextFocusOnChange says. */
    method HandlePinChange(value: string, index: nat, isConfirm: bool)
      requires Valid() && index < PinLength && Utf16Length(value) <= 1
      modifies this
      ensures Valid()
      ensures isConfirm ==> confirmPin == old(confirmPin)[index := value] && pin == old(pin)
      ensures !isConfirm ==> pin == old(pin)[index := value] && confirmPin == old(confirmPin)
      ensures isConfirm ==> confirmFocus == NextFocusOnChange(old(confirmFocus), index, value)
                            && pinFocus == old(pinFocus)
      ensures !isConfirm ==> pinFocus == NextFocusOnChange(old(pinFocus), index, value)
                             && confirmFocus == old(confirmFocus)
      ensures fullName == old(fullName) && email == old(email) && phoneNumber == old(phoneNumber)
      ensures isLoading == old(isLoading) && agreeToTerms == old(agreeToTerms)
    {
      var newPin := if isConfirm then confirmPin else pin;
      newPin := newPin[index := value];
      if isConfirm {
        confirmPin := newPin;
      } else {
        pin := newPin;
      }
      if value != "" && index < 4 {
        if isConfirm {
          confirmFocus := index + 1;
        } else {
          pinFocus := index + 1;
        }
      }
    }

    /** A key press on box `index` of the selected row: only focus of that
        row may change, as NextFocusOnKey says; no box changes. */
    method HandleKeyPress(key: string, index: nat, isConfirm: bool)
      requires Valid() && index < PinLength
      modifies this
      ensures Valid()
      ensures pin == old(pin) && confirmPin == old(confirmPin)
      ensures isConfirm ==> confirmFocus == NextFocusOnKey(old(confirmPin), old(confirmFocus), key, index)
                            && pinFocus == old(pinFocus)
      ensures !isConfirm ==> pinFocus == NextFocusOnKey(old(pin), old(pinFocus), key, index)
                             && confirmFocus == old(confirmFocus)
      ensures fullName == old(fullName) && email == old(email) && phoneNumber == old(phoneNumber)
      ensures isLoading == old(isLoading) && agreeToTerms == old(agreeToTerms)
    {
      if key == Backspace && index > 0 {
        var currentPin := if isConfirm then confirmPin else pin;
        if currentPin[index] == "" {
          if isConfirm {
            confirmFocus := index - 1;
          } else {
            pinFocus := index - 1;
          }
        }
      }
    }

    /** Pressing "Create Account": the verdict is that of Validate on the
        current state, and the screen starts loading only when it is
        Accepted; a failed check changes nothing. */
    method HandleSignup() returns (verdict: Verdict)
      requires Valid()
      modifies this`isLoading
      ensures Valid()
      ensures verdict == Validate(fullName, email, phoneNumber, pin, confirmPin, agreeToTerms)
      ensures isLoading == (verdict == Accepted || old(isLoading))
      ensures verdict == Accepted ==> Utf16Length(Join(pin)) == PinLength && Join(confirmPin) == Join(pin)
    {
      if fullName == "" || email == "" || phoneNumber == "" {
        return FieldsMissing;
      }
      var pinString := Join(pin);
      var confirmPinString := Join(confirmPin);
      if Utf16Length(pinString) != 5 {
        return PinIncomplete;
      }
      if pinString != confirmPinString {
        return PinsDiffer;
      }
      if !agreeToTerms {
        return TermsNotAccepted;
      }
      isLoading := true;
      verdict := Accepted;
    }

    /** Typing in the full-name field. */
    method SetFullName(s: string)
      requires Valid()
      modifies this`fullName
      ensures Valid()
      ensures fullName == s
    {
      fullName := s;
    }

    /** Typing in the email field. */
    method SetEmail(s: string)
      requires Valid()
      modifies this`email
      ensures Valid()
      ensures email == s
    {
      email := s;
    }

    /** Typing in the phone-number field. */
    method SetPhoneNumber(s: string)
      requires Valid()
      modifies this`phoneNumber
      ensures Valid()
      ensures phoneNumber == s
    {
      phoneNumber := s;
    }

    /** Tapping the terms checkbox flips it. */
    method ToggleTerms()
      requires Valid()
      modifies this`agreeToTerms
      ensures Valid()
      ensures agreeToTerms == !old(agreeToTerms)
    {
      agreeToTerms := !agreeToTerms;
    }
  }

  /** The joined text of the row typed in FillPinInOrder. */
  lemma JoinDigits()
    ensures Join(["1", "2", "3", "4", "5"]) == "12345"
  {
    var row := ["1", "2", "3", "4", "5"];
    assert row[1..] == ["2", "3", "4", "5"] && row[2..] == ["3", "4", "5"];
    assert row[3..] == ["4", "5"] && row[4..] == ["5"];
    assert Join(["5"]) == "5" && Join(["4", "5"]) == "45" && Join(["3", "4", "5"]) == "345";
    assert Join(["2", "3", "4", "5"]) == "2345";
  }

  /** A user fills the PIN row one digit per box from the first box: focus
      follows the typing and stops on the last box, and the row is complete. */
  method FillPinInOrder()
  {
    var s := new SignupScreen();
    s.HandlePinChange("1", 0, false);
    s.HandlePinChange("2", 1, false);
    s.HandlePinChange("3", 2, false);
    s.HandlePinChange("4", 3, false);
    assert s.pinFocus == 4;
    s.HandlePinChange("5", 4, false);
    assert s.pinFocus == 4;
    assert s.pin == ["1", "2", "3", "4", "5"];
    JoinDigits();
    assert Join(s.pin) == "12345";
    assert s.confirmPin == ["", "", "", "", ""] && s.confirmFocus == 0;
  }

  /** Typing into the first box, pressing Backspace on the empty second box,
      then retyping the first box: focus goes 1, 0, 1 and only the first box
      holds a digit. */
  method RetypeAfterBackspace()
  {
    var s := new SignupScreen();
    s.HandlePinChange("1", 0, false);
    assert s.pinFocus == 1;
    s.HandleKeyPress(Backspace, 1, false);
    assert s.pinFocus == 0;
    s.HandlePinChange("9", 0, false);
    assert s.pin == ["9", "", "", "", ""];
    assert s.pin[1..] == ["", "", "", ""] && s.pin[2..] == ["", "", ""];
    assert s.pin[3..] == ["", ""] && s.pin[4..] == [""];
    assert Join([""]) == "" && Join(["", ""]) == "" && Join(["", "", ""]) == "";
    assert Join(["", "", "", ""]) == "";
    assert Join(s.pin) == "9";
  }
}
