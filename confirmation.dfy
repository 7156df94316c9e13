/**
 * The confirmation message shown after an order is accepted:
 * "Thank you for your order, <name>! Your <size word> pizza with <toppings> is on the way."
 */
module Confirmation {
  import opened FormSchema

  const OnTheWay: string := " is on the way."

  predicate IsDigit(c: char) {
    '0' <= c <= '9'
  }

  function Digit(d: nat): (c: char)
    requires d < 10
    ensures IsDigit(c)
  {
    ('0' as int + d) as char
  }

  function DigitValue(c: char): (d: nat)
    requires IsDigit(c)
    ensures d < 10 && Digit(d) == c
  {
    c as int - '0' as int
  }

  /** The decimal text of a count, as a template literal renders a non-negative integer. */
  function NatToDecimal(n: nat): (s: string)
    ensures |s| >= 1
    ensures forall i :: 0 <= i < |s| ==> IsDigit(s[i])
    ensures s[0] == '0' ==> n == 0
    ensures n < 10 <==> |s| == 1
  {
    if n < 10 then [Digit(n)] else NatToDecimal(n / 10) + [Digit(n % 10)]
  }

  /** The number a string of decimal digits denotes. */
  function DecimalValue(s: string): nat
    requires forall i :: 0 <= i < |s| ==> IsDigit(s[i])
  {
    if s == [] then 0 else 10 * DecimalValue(s[..|s| - 1]) + DigitValue(s[|s| - 1])
  }

  /** Reading back the rendered count gives the count. */
  lemma {:induction false} DecimalRoundTrip(n: nat)
    ensures DecimalValue(NatToDecimal(n)) == n
  {
    var s := NatToDecimal(n);
    if n < 10 {
      assert s[..0] == [];
    } else {
      assert s[..|s| - 1] == NatToDecimal(n / 10);
      DecimalRoundTrip(n / 10);
    }
  }

  /** Different counts are rendered differently. */
  lemma NatToDecimalInjective(a: nat, b: nat)
    ensures NatToDecimal(a) == NatToDecimal(b) <==> a == b
  {
    DecimalRoundTrip(a);
    DecimalRoundTrip(b);
  }

  const ThankYou: string := "Thank you for your order, "

  /** The opening sentence of every confirmation. */
  function Greeting(name: string): string {
    ThankYou + name + "!"
  }

  /** The greeting holds the customer's name verbatim between the fixed thank-you and "!". */
  lemma GreetingParts(name: string)
    ensures |Greeting(name)| == |ThankYou| + |name| + 1
    ensures var g := Greeting(name);
      g[..|ThankYou|] == ThankYou && g[|ThankYou|..|g| - 1] == name && g[|g| - 1] == '!'
  {
  }

  /** The word for a size code; anything but "S" and "M" reads as "large". */
  function SizeWord(code: string): (w: string)
    ensures w == "small" <==> code == "S"
    ensures w == "medium" <==> code == "M"
    ensures w == "large" <==> code != "S" && code != "M"
  {
    if code == "S" then "small"
    else if code == "M" then "medium"
    else "large"
  }

  /** The topping phrase: "no toppings", "1 topping", "<n> toppings". */
  function ToppingPhrase(n: nat): (p: string)
    ensures n == 0 ==> p == "no toppings"
    ensures n == 1 ==> p == "1 topping"
    ensures n >= 2 ==> p == NatToDecimal(n) + " toppings"
  {
    var topp := if n == 1 then "topping" else "toppings";
    if n == 0 then "no " + topp else NatToDecimal(n) + " " + topp
  }

  /** Different topping counts give different phrases. */
  lemma ToppingPhraseInjective(a: nat, b: nat)
    ensures ToppingPhrase(a) == ToppingPhrase(b) <==> a == b
  {
    var pa, pb := ToppingPhrase(a), ToppingPhrase(b);
    if a >= 2 && b >= 2 {
      assert NatToDecimal(a) == pa[..|pa| - 9];
      assert NatToDecimal(b) == pb[..|pb| - 9];
      NatToDecimalInjective(a, b);
    } else if a != b && (a == 0 || b == 0) {
      // one phrase starts with a digit, the other with 'n'
      assert IsDigit(pa[0]) != IsDigit(pb[0]);
    }
  }

  /** The second sentence: size word and topping phrase. */
  function Sentence(sizeWord: string, toppingCount: nat): string {
    " Your " + sizeWord + " pizza with " + ToppingPhrase(toppingCount) + OnTheWay
  }

  /** The second sentence names the size word right after " Your " and closes with the fixed ending. */
  lemma SentenceParts(sizeWord: string, toppingCount: nat)
    ensures var e := Sentence(sizeWord, toppingCount);
      && |e| > 6 + |sizeWord| + |OnTheWay|
      && e[..6] == " Your " && e[6..6 + |sizeWord|] == sizeWord
      && e[|e| - |OnTheWay|..] == OnTheWay
  {
    var front := " Your " + sizeWord;
    var body := front + " pizza with " + ToppingPhrase(toppingCount);
    var e := Sentence(sizeWord, toppingCount);
    assert e == body + OnTheWay;
    assert e[..|front|] == front by {
      assert body[..|front|] == front;
    }
    assert e[..6] == front[..6] && e[6..6 + |sizeWord|] == front[6..];
  }

  /** The message `buildConfirmationStr` builds from the form values. */
  function BuildConfirmationStr(v: FormValues): (m: string)
    ensures Greeting(v.fullName) <= m
    ensures |m| >= |OnTheWay| && m[|m| - |OnTheWay|..] == OnTheWay
  {
    Greeting(v.fullName) + Sentence(SizeWord(v.size), |v.toppings|)
  }

  /** The size word's first letter stands right after "Thank you for your order, <name>! Your ". */
  lemma SizeWordInMessage(v: FormValues)
    ensures |Greeting(v.fullName)| + 6 < |BuildConfirmationStr(v)|
    ensures BuildConfirmationStr(v)[|Greeting(v.fullName)| + 6] == SizeWord(v.size)[0]
  {
    var g, e := Greeting(v.fullName), Sentence(SizeWord(v.size), |v.toppings|);
    assert BuildConfirmationStr(v)[|g| + 6] == e[6];
    assert e[6] == (" Your " + SizeWord(v.size))[6];
  }

  /**
   * For the same customer and topping count, two messages are equal exactly
   * when they name the same size word.
   */
  lemma MessageDeterminesSizeWord(v: FormValues, w: FormValues)
    requires v.fullName == w.fullName && |v.toppings| == |w.toppings|
    ensures BuildConfirmationStr(v) == BuildConfirmationStr(w) <==> SizeWord(v.size) == SizeWord(w.size)
  {
    SizeWordInMessage(v);
    SizeWordInMessage(w);
  }

  /** For the same size and topping count, two messages are equal exactly when the names are. */
  lemma MessageDeterminesName(v: FormValues, w: FormValues)
    requires v.size == w.size && |v.toppings| == |w.toppings|
    ensures BuildConfirmationStr(v) == BuildConfirmationStr(w) <==> v.fullName == w.fullName
  {
    var gv, gw := Greeting(v.fullName), Greeting(w.fullName);
    var e := Sentence(SizeWord(v.size), |v.toppings|);
    GreetingParts(v.fullName);
    GreetingParts(w.fullName);
    if BuildConfirmationStr(v) == BuildConfirmationStr(w) {
      assert |gv| == |gw|;
      assert gv == BuildConfirmationStr(v)[..|gv|];
      assert gw == BuildConfirmationStr(w)[..|gw|];
    }
  }

  /**
   * For the same customer and size, two messages are equal exactly when the
   * orders have the same number of toppings: the message states the count.
   */
  lemma MessageDeterminesToppingCount(v: FormValues, w: FormValues)
    requires v.fullName == w.fullName && v.size == w.size
    ensures BuildConfirmationStr(v) == BuildConfirmationStr(w) <==> |v.toppings| == |w.toppings|
  {
    var g := Greeting(v.fullName);
    var front := " Your " + SizeWord(v.size) + " pizza with ";
    var pv, pw := ToppingPhrase(|v.toppings|), ToppingPhrase(|w.toppings|);
    var mv, mw := BuildConfirmationStr(v), BuildConfirmationStr(w);
    if mv == mw {
      var ev, ew := front + pv + OnTheWay, front + pw + OnTheWay;
      assert ev == mv[|g|..] && ew == mw[|g|..];
      assert pv == ev[|front|..|ev| - |OnTheWay|];
      assert pw == ew[|front|..|ew| - |OnTheWay|];
    }
    ToppingPhraseInjective(|v.toppings|, |w.toppings|);
  }
}
