/** The phone-number rule of the contact form: after trimming, the phone must
    match the regular expression ^\(?\d{2}\)?\s?\d{4,5}-?\d{4}$ (an optional
    opening parenthesis, a two-digit area code, an optional closing
    parenthesis, at most one whitespace character, four or five digits, an
    optional dash, four digits). */
module Phone {
  import opened Text

  /** One character position of the pattern. */
  datatype Slot = DigitSlot | SpaceSlot | Literal(ch: char)

  predicate Accepts(slot: Slot, ch: char)
  {
    match slot
    case DigitSlot => IsDigit(ch)
    case SpaceSlot => IsWhitespace(ch)
    case Literal(c) => ch == c
  }

  /** The choices the regular expression leaves open: which optional parts are
      present, and whether the middle group has five digits rather than four. */
  datatype Shape = Shape(openParen: bool, closeParen: bool, space: bool, fiveDigits: bool, dash: bool)

  function Optional(present: bool, slot: Slot): seq<Slot>
  {
    if present then [slot] else []
  }

  function Digits(n: nat): (t: seq<Slot>)
    ensures |t| == n && forall i :: 0 <= i < n ==> t[i] == DigitSlot
  {
    seq(n, _ => DigitSlot)
  }

  /** `\d{4,5}-?\d{4}` for one choice of its options. */
  function Subscriber(fiveDigits: bool, dash: bool): seq<Slot>
  {
    Digits(if fiveDigits then 5 else 4) + (Optional(dash, Literal('-')) + Digits(4))
  }

  /** The whole pattern, for one choice of its options. */
  function Template(sh: Shape): seq<Slot>
  {
    Optional(sh.openParen, Literal('(')) +
    (Digits(2) +
    (Optional(sh.closeParen, Literal(')')) +
    (Optional(sh.space, SpaceSlot) +
    Subscriber(sh.fiveDigits, sh.dash))))
  }

  /** `s` spells template `t`, one character per slot. */
  predicate Fits(s: string, t: seq<Slot>)
  {
    |s| == |t| && forall i :: 0 <= i < |s| ==> Accepts(t[i], s[i])
  }

  /** The language of the anchored regular expression: some choice of its
      options spells `s` exactly. */
  ghost predicate MatchesPattern(s: string)
  {
    exists sh: Shape :: Fits(s, Template(sh))
  }

  // ---------------------------------------------------------------------------
  // The hand-written recogniser

  /** Consumes one leading character accepted by `slot`, if there is one. */
  function SkipOptional(s: string, slot: Slot): (r: string)
    ensures |r| <= |s|
  {
    if |s| > 0 && Accepts(slot, s[0]) then s[1..] else s
  }

  predicate AllDigits(s: string)
  {
    forall i :: 0 <= i < |s| ==> IsDigit(s[i])
  }

  /** `\d{4,5}-?\d{4}` anchored at both ends, decided by length. */
  predicate IsSubscriber(r: string)
  {
    || ((|r| == 8 || |r| == 9) && AllDigits(r))
    || (|r| == 9 && AllDigits(r[..4]) && r[4] == '-' && AllDigits(r[5..]))
    || (|r| == 10 && AllDigits(r[..5]) && r[5] == '-' && AllDigits(r[6..]))
  }

  /** Decides the phone pattern left to right. Every optional part is
      followed by a part that cannot start with the same character, so
      consuming it whenever it is there is never wrong. */
  predicate IsPhone(s: string)
  {
    var a := SkipOptional(s, Literal('('));
    |a| >= 2 && IsDigit(a[0]) && IsDigit(a[1]) &&
    IsSubscriber(SkipOptional(SkipOptional(a[2..], Literal(')')), SpaceSlot))
  }

  // ---------------------------------------------------------------------------
  // Properties

  /** The recogniser decides exactly the language of the regular expression. */
  lemma IsPhoneCorrect(s: string)
    ensures IsPhone(s) <==> MatchesPattern(s)
  {
    if IsPhone(s) {
      IsPhoneSound(s);
    }
    if MatchesPattern(s) {
      var sh: Shape :| Fits(s, Template(sh));
      IsPhoneComplete(s, sh);
    }
  }

  /** Number of digit characters in `s`. */
  function CountDigits(s: string): nat
    decreases |s|
  {
    if |s| == 0 then 0 else (if IsDigit(s[0]) then 1 else 0) + CountDigits(s[1..])
  }

  /** A phone the pattern accepts has 10 to 15 characters, of which 10 or 11
      are digits (area code plus eight or nine subscriber digits). */
  lemma PatternBounds(s: string)
    ensures MatchesPattern(s) ==> 10 <= |s| <= 15
    ensures MatchesPattern(s) ==> CountDigits(s) == 10 || CountDigits(s) == 11
  {
    if MatchesPattern(s) {
      var sh: Shape :| Fits(s, Template(sh));
      var t := Template(sh);
      NoDigitLiterals(sh);
      FitsCountsDigits(s, t);
      TemplateDigitSlots(sh);
    }
  }

  // ---------------------------------------------------------------------------
  // Proof helpers

  lemma FitsConcat(x: string, y: string, t: seq<Slot>, u: seq<Slot>)
    requires Fits(x, t) && Fits(y, u)
    ensures Fits(x + y, t + u)
  {
    forall i | 0 <= i < |x + y|
      ensures Accepts((t + u)[i], (x + y)[i])
    {
      if i < |x| {
        assert (t + u)[i] == t[i] && (x + y)[i] == x[i];
      } else {
        assert (t + u)[i] == u[i - |t|] && (x + y)[i] == y[i - |x|];
      }
    }
  }

  lemma FitsSplit(s: string, t: seq<Slot>, u: seq<Slot>)
    requires Fits(s, t + u)
    ensures Fits(s[..|t|], t) && Fits(s[|t|..], u)
  {
    forall i | 0 <= i < |t|
      ensures Accepts(t[i], s[..|t|][i])
    {
      assert (t + u)[i] == t[i];
    }
    forall i | 0 <= i < |u|
      ensures Accepts(u[i], s[|t|..][i])
    {
      assert (t + u)[|t| + i] == u[i];
    }
  }

  /** What `SkipOptional` consumes is the optional slot as the input spells it. */
  lemma SkipOptionalSpells(s: string, slot: Slot)
    ensures var r := SkipOptional(s, slot);
            var k := |s| - |r|;
            s == s[..k] + r && Fits(s[..k], Optional(|s| > 0 && Accepts(slot, s[0]), slot))
  {
    var r := SkipOptional(s, slot);
    var k := |s| - |r|;
    assert s == s[..k] + s[k..];
  }

  /** When the character after an optional slot can never be taken for it,
      `SkipOptional` consumes exactly what the template's choice says. */
  lemma SkipOptionalExact(s: string, slot: Slot, present: bool, rest: seq<Slot>)
    requires Fits(s, Optional(present, slot) + rest)
    requires !present && |s| > 0 ==> !Accepts(slot, s[0])
    ensures SkipOptional(s, slot) == s[|Optional(present, slot)|..]
    ensures Fits(SkipOptional(s, slot), rest)
  {
    FitsSplit(s, Optional(present, slot), rest);
    if present {
      assert Accepts(slot, s[0]);
    }
  }

  lemma SubscriberSound(r: string) returns (five: bool, dash: bool)
    requires IsSubscriber(r)
    ensures Fits(r, Subscriber(five, dash))
  {
    if (|r| == 8 || |r| == 9) && AllDigits(r) {
      five, dash := |r| == 9, false;
      var m := if five then 5 else 4;
      assert r == r[..m] + ([] + r[m..]);
      FitsConcat(r[m..], [], Digits(4), []);
      FitsConcat([], r[m..], Optional(false, Literal('-')), Digits(4));
      FitsConcat(r[..m], [] + r[m..], Digits(m), Optional(false, Literal('-')) + Digits(4));
      assert Fits(r, Subscriber(five, false));
    } else {
      five, dash := |r| == 10, true;
      var m := if five then 5 else 4;
      assert r == r[..m] + ([r[m]] + r[m + 1..]);
      assert Fits([r[m]], [Literal('-')]);
      assert Fits(r[m + 1..], Digits(4));
      FitsConcat([r[m]], r[m + 1..], Optional(true, Literal('-')), Digits(4));
      FitsConcat(r[..m], [r[m]] + r[m + 1..], Digits(m), Optional(true, Literal('-')) + Digits(4));
      assert Fits(r, Subscriber(five, true));
    }
  }

  lemma SubscriberComplete(r: string, five: bool, dash: bool)
    requires Fits(r, Subscriber(five, dash))
    ensures IsSubscriber(r)
  {
    var m := if five then 5 else 4;
    FitsSplit(r, Digits(m), Optional(dash, Literal('-')) + Digits(4));
    var tail := r[m..];
    FitsSplit(tail, Optional(dash, Literal('-')), Digits(4));
    if dash {
      assert r[..m] == r[..m] && tail[1..] == r[m + 1..];
      assert r[m] == tail[0];
    } else {
      assert r == r[..m] + tail;
      forall i | 0 <= i < |r|
        ensures IsDigit(r[i])
      {
        if i < m {
          assert r[i] == r[..m][i];
        } else {
          assert r[i] == tail[i - m];
        }
      }
    }
  }

  /** A string whose remainder after `SkipOptional` spells `t` spells the
      optional slot (as the input chose it) followed by `t`. */
  lemma OptionalThen(s: string, slot: Slot, t: seq<Slot>)
    requires Fits(SkipOptional(s, slot), t)
    ensures Fits(s, Optional(|s| > 0 && Accepts(slot, s[0]), slot) + t)
  {
    var r := SkipOptional(s, slot);
    SkipOptionalSpells(s, slot);
    FitsConcat(s[..|s| - |r|], r, Optional(|s| > 0 && Accepts(slot, s[0]), slot), t);
  }

  lemma TwoDigitsThen(a: string, t: seq<Slot>)
    requires |a| >= 2 && IsDigit(a[0]) && IsDigit(a[1]) && Fits(a[2..], t)
    ensures Fits(a, Digits(2) + t)
  {
    assert a == a[..2] + a[2..];
    FitsConcat(a[..2], a[2..], Digits(2), t);
  }

  lemma IsPhoneSound(s: string)
    requires IsPhone(s)
    ensures MatchesPattern(s)
  {
    var a := SkipOptional(s, Literal('('));
    var b := a[2..];
    var c := SkipOptional(b, Literal(')'));
    var d := SkipOptional(c, SpaceSlot);
    var five, dash := SubscriberSound(d);
    var sh := Shape(|s| > 0 && s[0] == '(', |b| > 0 && b[0] == ')',
                    |c| > 0 && IsWhitespace(c[0]), five, dash);
    var t3 := Optional(sh.space, SpaceSlot) + Subscriber(five, dash);
    var t2 := Optional(sh.closeParen, Literal(')')) + t3;
    OptionalThen(c, SpaceSlot, Subscriber(five, dash));
    OptionalThen(b, Literal(')'), t3);
    TwoDigitsThen(a, t2);
    OptionalThen(s, Literal('('), Digits(2) + t2);
    assert Fits(s, Template(sh));
  }

  lemma IsPhoneComplete(s: string, sh: Shape)
    requires Fits(s, Template(sh))
    ensures IsPhone(s)
  {
    var sub := Subscriber(sh.fiveDigits, sh.dash);
    var t3 := Optional(sh.space, SpaceSlot) + sub;
    var t2 := Optional(sh.closeParen, Literal(')')) + t3;
    var t1 := Digits(2) + t2;
    SkipOptionalExact(s, Literal('('), sh.openParen, t1);
    var a := SkipOptional(s, Literal('('));
    FitsSplit(a, Digits(2), t2);
    assert IsDigit(a[0]) && IsDigit(a[1]);
    var b := a[2..];
    assert sub[0] == DigitSlot;
    SkipOptionalExact(b, Literal(')'), sh.closeParen, t3);
    var c := SkipOptional(b, Literal(')'));
    SkipOptionalExact(c, SpaceSlot, sh.space, sub);
    SubscriberComplete(SkipOptional(c, SpaceSlot), sh.fiveDigits, sh.dash);
  }

  /** No literal slot of the pattern is a digit. */
  ghost predicate DigitFreeLiterals(t: seq<Slot>)
  {
    forall i :: 0 <= i < |t| && t[i].Literal? ==> !IsDigit(t[i].ch)
  }

  lemma NoDigitLiterals(sh: Shape)
    ensures DigitFreeLiterals(Template(sh))
  {
    var m := if sh.fiveDigits then 5 else 4;
    var sub := Subscriber(sh.fiveDigits, sh.dash);
    var t3 := Optional(sh.space, SpaceSlot) + sub;
    var t2 := Optional(sh.closeParen, Literal(')')) + t3;
    var t1 := Digits(2) + t2;
    DigitFreeConcat(Optional(sh.dash, Literal('-')), Digits(4));
    DigitFreeConcat(Digits(m), Optional(sh.dash, Literal('-')) + Digits(4));
    DigitFreeConcat(Optional(sh.space, SpaceSlot), sub);
    DigitFreeConcat(Optional(sh.closeParen, Literal(')')), t3);
    DigitFreeConcat(Digits(2), t2);
    DigitFreeConcat(Optional(sh.openParen, Literal('(')), t1);
  }

  lemma DigitFreeConcat(t: seq<Slot>, u: seq<Slot>)
    requires DigitFreeLiterals(t) && DigitFreeLiterals(u)
    ensures DigitFreeLiterals(t + u)
  {
    forall i | 0 <= i < |t + u| && (t + u)[i].Literal?
      ensures !IsDigit((t + u)[i].ch)
    {
      if i < |t| {
        assert (t + u)[i] == t[i];
      } else {
        assert (t + u)[i] == u[i - |t|];
      }
    }
  }

  /** Number of digit slots in `t`. */
  function CountDigitSlots(t: seq<Slot>): nat
    decreases |t|
  {
    if |t| == 0 then 0 else (if t[0].DigitSlot? then 1 else 0) + CountDigitSlots(t[1..])
  }

  /** A string spelling a template has one digit per digit slot. */
  lemma {:induction false} FitsCountsDigits(s: string, t: seq<Slot>)
    requires Fits(s, t) && DigitFreeLiterals(t)
    ensures CountDigits(s) == CountDigitSlots(t)
    decreases |s|
  {
    if |s| > 0 {
      assert Fits(s[1..], t[1..]) && DigitFreeLiterals(t[1..]) by {
        assert forall i :: 0 <= i < |t| - 1 ==> t[1..][i] == t[i + 1];
      }
      FitsCountsDigits(s[1..], t[1..]);
      assert Accepts(t[0], s[0]);
    }
  }

  lemma {:induction false} DigitSlotsAppend(t: seq<Slot>, u: seq<Slot>)
    ensures CountDigitSlots(t + u) == CountDigitSlots(t) + CountDigitSlots(u)
    decreases |t|
  {
    if |t| > 0 {
      assert (t + u)[1..] == t[1..] + u;
      DigitSlotsAppend(t[1..], u);
    } else {
      assert t + u == u;
    }
  }

  lemma {:induction false} DigitSlotsOfDigits(n: nat)
    ensures CountDigitSlots(Digits(n)) == n
    decreases n
  {
    if n > 0 {
      assert Digits(n)[1..] == Digits(n - 1);
      DigitSlotsOfDigits(n - 1);
    }
  }

  lemma SubscriberDigitSlots(five: bool, dash: bool)
    ensures CountDigitSlots(Subscriber(five, dash)) == if five then 9 else 8
  {
    var m := if five then 5 else 4;
    DigitSlotsOfDigits(m);
    DigitSlotsOfDigits(4);
    DigitSlotsAppend(Optional(dash, Literal('-')), Digits(4));
    DigitSlotsAppend(Digits(m), Optional(dash, Literal('-')) + Digits(4));
  }

  lemma TemplateDigitSlots(sh: Shape)
    ensures |Template(sh)| == 10 + (if sh.openParen then 1 else 0) + (if sh.closeParen then 1 else 0)
              + (if sh.space then 1 else 0) + (if sh.fiveDigits then 1 else 0) + (if sh.dash then 1 else 0)
    ensures CountDigitSlots(Template(sh)) == if sh.fiveDigits then 11 else 10
  {
    var sub := Subscriber(sh.fiveDigits, sh.dash);
    var t3 := Optional(sh.space, SpaceSlot) + sub;
    var t2 := Optional(sh.closeParen, Literal(')')) + t3;
    var t1 := Digits(2) + t2;
    SubscriberDigitSlots(sh.fiveDigits, sh.dash);
    DigitSlotsOfDigits(2);
    DigitSlotsAppend(Optional(sh.space, SpaceSlot), sub);
    DigitSlotsAppend(Optional(sh.closeParen, Literal(')')), t3);
    DigitSlotsAppend(Digits(2), t2);
    DigitSlotsAppend(Optional(sh.openParen, Literal('(')), t1);
  }
}
