/** The key handling of the accounting application's calculator window: the
    number being typed (`current_number`), the number kept for the pending
    operation, the operation itself, and the text the display shows. The arithmetic of '=' (Python floats and `str()` of the
    result) is outside the model: the key carries its outcome. */
module Calculator {
  import opened Text

  /** What evaluating '=' gave: the text of the result, a division by zero,
      or an exception from `float()`. */
  datatype Outcome = Value(rendered: string) | DivisionByZero | Raised

  /** A current number that ± can toggle back and forth: not empty, not a
      lone sign, not "-0" and not starting with two signs. Every value
      `current_number` can take has this shape. */
  predicate WellFormed(s: string)
  {
    |s| > 0 && s != "-" && s != "-0" && !(|s| >= 2 && s[0] == '-' && s[1] == '-')
  }

  /** The current number after typing a digit: it replaces a lone "0" and is
      appended to anything else. */
  function Typed(s: string, d: char): (r: string)
    ensures |r| >= 1 && r[|r| - 1] == d
    ensures s == "0" ==> r == [d]
    ensures s != "0" ==> r[..|r| - 1] == s
  {
    if s == "0" then [d] else s + [d]
  }

  /** The current number after ±: "0" stays, otherwise a leading '-' is removed or
      added. */
  function Negated(s: string): (r: string)
    ensures s == "0" ==> r == s
    ensures s != "0" && |s| > 0 && s[0] == '-' ==> r == s[1..]
    ensures s != "0" && (|s| == 0 || s[0] != '-') ==> r == "-" + s
  {
    if s == "0" then s
    else if |s| > 0 && s[0] == '-' then s[1..]
    else "-" + s
  }

  class Calculator {
    var current: string
    var previous: string
    var operation: string
    /** The text of the display, which is not always the current number. */
    var display: string

    ghost predicate Valid()
      reads this
    {
      WellFormed(current) && operation in {"", "+", "-", "*", "/"}
    }

    constructor ()
      ensures Valid()
      ensures current == "0" && previous == "" && operation == "" && display == "0"
    {
      current, previous, operation, display := "0", "", "", "0";
    }

    /** A digit key. */
    method Digit(d: char)
      requires Valid() && IsDigit(d)
      modifies this`current, this`display
      ensures Valid()
      ensures current == Typed(old(current), d) && display == current
    {
      if current == "0" {
        current := [d];
      } else {
        current := current + [d];
      }
      display := current;
      TypedWellFormed(old(current), d);
    }

    /** The '.' key: a point is added only when there is none yet. */
    method Point()
      requires Valid()
      modifies this`current, this`display
      ensures Valid()
      ensures current == if '.' in old(current) then old(current) else old(current) + "."
      ensures display == if '.' in old(current) then old(display) else current
    {
      if '.' !in current {
        current := current + ".";
        display := current;
        assert current[|current| - 1] == '.' && current[0] == old(current)[0];
        if |old(current)| >= 2 { assert current[1] == old(current)[1]; }
      }
    }

    /** '+', '-', '*' or '/': the typed number becomes the pending one, and
        the display shows it followed by the operator. */
    method Operator(op: char)
      requires Valid() && (op == '+' || op == '-' || op == '*' || op == '/')
      modifies this
      ensures Valid()
      ensures previous == old(current) && current == "0" && operation == [op]
      ensures display == old(current) + " " + [op]
    {
      previous := current;
      current := "0";
      operation := [op];
      display := previous + " " + operation;
    }

    /** '=': only with a pending number and operation. A result becomes the
        current number and the display and clears both; a division by zero
        makes the current number "Erreur" and clears both; an exception shows
        "Erreur", resets the current number to "0" and keeps both. */
    method Equals(outcome: Outcome)
      requires Valid()
      requires outcome.Value? ==> WellFormed(outcome.rendered)
      modifies this
      ensures Valid()
      ensures old(previous) == "" || old(operation) == "" ==> unchanged(this)
      ensures old(previous) != "" && old(operation) != "" ==>
        match outcome
        case Value(r) => current == r && display == r && previous == "" && operation == ""
        case DivisionByZero => current == "Erreur" && display == "Erreur" && previous == "" && operation == ""
        case Raised =>
          current == "0" && display == "Erreur" && previous == old(previous) && operation == old(operation)
    {
      if previous != "" && operation != "" {
        match outcome
        case Value(r) =>
          current, previous, operation, display := r, "", "", r;
        case DivisionByZero =>
          current, previous, operation, display := "Erreur", "", "", "Erreur";
        case Raised =>
          current, display := "0", "Erreur";
      }
    }

    /** 'C': everything cleared. */
    method Clear()
      modifies this
      ensures Valid()
      ensures current == "0" && previous == "" && operation == "" && display == "0"
    {
      current, previous, operation, display := "0", "", "", "0";
    }

    /** 'CE': only the current number cleared, and shown. */
    method ClearEntry()
      requires Valid()
      modifies this`current, this`display
      ensures Valid()
      ensures current == "0" && display == "0"
    {
      current, display := "0", "0";
    }

    /** '±': the display is updated only when the current number changes. */
    method Negate()
      requires Valid()
      modifies this`current, this`display
      ensures Valid()
      ensures current == Negated(old(current))
      ensures display == if old(current) == "0" then old(display) else current
    {
      if current != "0" {
        if |current| > 0 && current[0] == '-' {
          current := current[1..];
        } else {
          current := "-" + current;
        }
        display := current;
      }
      NegatedWellFormed(old(current));
    }
  }

  // ------------------------------------------------------------ properties

  lemma TypedWellFormed(s: string, d: char)
    requires WellFormed(s) && IsDigit(d)
    ensures WellFormed(Typed(s, d))
  {
    var r := Typed(s, d);
    if s != "0" {
      assert r == s + [d] && r[0] == s[0];
      if |s| >= 2 { assert r[1] == s[1]; }
    }
  }

  lemma NegatedWellFormed(s: string)
    requires WellFormed(s)
    ensures WellFormed(Negated(s))
  {
    var r := Negated(s);
    if s != "0" && s[0] == '-' {
      assert r == s[1..];
      if |r| >= 2 { assert r[0] == s[1] && r[1] == s[2]; }
    } else if s != "0" {
      assert r[1] == s[0];
    }
  }

  /** ± twice gives back any current number the calculator can hold. */
  lemma NegatedTwice(s: string)
    requires WellFormed(s)
    ensures Negated(Negated(s)) == s
  {
    if s != "0" && s[0] == '-' {
      var t := s[1..];
      assert t != "0" && |t| > 0 && t[0] != '-';
      assert "-" + t == s;
    } else if s != "0" {
      assert ("-" + s)[1..] == s;
    }
  }

  /** The current number after a run of digit keys. */
  function TypedAll(s: string, ds: string): string
    decreases |ds|
  {
    if ds == [] then s else TypedAll(Typed(s, ds[0]), ds[1..])
  }

  /** Typing a number without a leading zero on a fresh current number gives
      exactly that number. */
  lemma TypingNumber(ds: string)
    requires ds != [] && ds[0] != '0'
    ensures TypedAll("0", ds) == ds
  {
    AppendDigits([ds[0]], ds[1..]);
    assert [ds[0]] + ds[1..] == ds;
  }

  lemma {:induction false} AppendDigits(s: string, ds: string)
    requires s != "0" && s != ""
    ensures TypedAll(s, ds) == s + ds
    decreases |ds|
  {
    if ds != [] {
      assert s + [ds[0]] != "0";
      AppendDigits(s + [ds[0]], ds[1..]);
      assert s + [ds[0]] + ds[1..] == s + ds;
    }
  }
}
