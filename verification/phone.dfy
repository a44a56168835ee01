/** The Algerian mobile-number check of order.routes.js (`validateAlgerianPhone`). */
module Phones {
  import opened Results
  import opened Text

  /** The characters removed before matching: whitespace and `-`. */
  predicate IsSeparator(c: char) { IsSpace(c) || c == '-' }

  /** `phone.replace(/\s+/g, '').replace(/-/g, '')`. */
  function Clean(s: string): (r: string)
    ensures |r| <= |s|
    ensures forall i :: 0 <= i < |r| ==> !IsSeparator(r[i])
  {
    if s == [] then []
    else (if IsSeparator(s[0]) then [] else [s[0]]) + Clean(s[1..])
  }

  predicate AllDigits(s: string) { forall i :: 0 <= i < |s| ==> IsDigit(s[i]) }

  /** The digit after the trunk prefix that marks a mobile operator: 5, 6 or 7. */
  predicate IsOperatorDigit(c: char) { '5' <= c <= '7' }

  /** A mobile number: its operator digit and its eight subscriber digits. */
  datatype Mobile = Mobile(operator: char, subscriber: string)

  predicate WellFormed(m: Mobile)
  {
    IsOperatorDigit(m.operator) && |m.subscriber| == 8 && AllDigits(m.subscriber)
  }

  /** `0` + operator + subscriber, ten characters. */
  function LocalForm(m: Mobile): string { "0" + [m.operator] + m.subscriber }

  /** `+213` + operator + subscriber, thirteen characters. */
  function InternationalForm(m: Mobile): string { "+213" + [m.operator] + m.subscriber }

  /** The pattern `^(0[5-7]\d{8}|\+213[5-7]\d{8})$`, returning the number it matched. */
  function MatchMobile(c: string): (r: Option<Mobile>)
    ensures r.Some? ==> WellFormed(r.value)
    ensures r.Some? ==> c == LocalForm(r.value) || c == InternationalForm(r.value)
  {
    if |c| == 10 && c[0] == '0' && IsOperatorDigit(c[1]) && AllDigits(c[2..]) then
      assert c == LocalForm(Mobile(c[1], c[2..]));
      Some(Mobile(c[1], c[2..]))
    else if |c| == 13 && c[..4] == "+213" && IsOperatorDigit(c[4]) && AllDigits(c[5..]) then
      assert c == InternationalForm(Mobile(c[4], c[5..]));
      Some(Mobile(c[4], c[5..]))
    else
      None
  }

  predicate ValidAlgerianPhone(phone: string)
  {
    MatchMobile(Clean(phone)).Some?
  }

  /** Both written forms of every well-formed number are matched, and give that number back. */
  lemma MatchBothForms(m: Mobile)
    requires WellFormed(m)
    ensures MatchMobile(LocalForm(m)) == Some(m)
    ensures MatchMobile(InternationalForm(m)) == Some(m)
  {
    var l := LocalForm(m);
    assert l[2..] == m.subscriber;
    var n := InternationalForm(m);
    assert n[..4] == "+213" && n[5..] == m.subscriber;
  }

  /** A number is accepted exactly when, once cleaned, it is the local or the
      international form of a well-formed mobile number. */
  lemma AcceptedForms(phone: string)
    ensures ValidAlgerianPhone(phone) <==>
      exists m :: WellFormed(m) && (Clean(phone) == LocalForm(m) || Clean(phone) == InternationalForm(m))
  {
    var c := Clean(phone);
    if m :| WellFormed(m) && (c == LocalForm(m) || c == InternationalForm(m)) {
      MatchBothForms(m);
    }
  }

  lemma {:induction false} CleanAppend(a: string, b: string)
    ensures Clean(a + b) == Clean(a) + Clean(b)
  {
    if a == [] {
      assert a + b == b;
    } else {
      assert (a + b)[1..] == a[1..] + b;
      CleanAppend(a[1..], b);
    }
  }

  lemma {:induction false} CleanSeparators(s: string)
    requires forall i :: 0 <= i < |s| ==> IsSeparator(s[i])
    ensures Clean(s) == []
  {
    if s != [] {
      CleanSeparators(s[1..]);
    }
  }

  /** Spaces and hyphens may be written anywhere in a number: inserting one does not change
      whether it is accepted. */
  lemma SeparatorInsensitive(a: string, c: char, b: string)
    requires IsSeparator(c)
    ensures Clean(a + [c] + b) == Clean(a + b)
    ensures ValidAlgerianPhone(a + [c] + b) == ValidAlgerianPhone(a + b)
  {
    assert [c][1..] == [];
    assert Clean([c]) == [];
    calc {
      Clean(a + [c] + b);
      { CleanAppend(a + [c], b); }
      Clean(a + [c]) + Clean(b);
      { CleanAppend(a, [c]); }
      Clean(a) + Clean(b);
      { CleanAppend(a, b); }
      Clean(a + b);
    }
  }

  /** The `trim` setter keeps an accepted number accepted: the stored phone passes too. */
  lemma TrimKeepsValid(phone: string)
    ensures Clean(Trim(phone)) == Clean(phone)
    ensures ValidAlgerianPhone(Trim(phone)) == ValidAlgerianPhone(phone)
  {
    var a, b := TrimSlice(phone);
    assert phone == phone[..a] + phone[a..b] + phone[b..];
    CleanAppend(phone[..a] + phone[a..b], phone[b..]);
    CleanAppend(phone[..a], phone[a..b]);
    CleanSeparators(phone[..a]);
    CleanSeparators(phone[b..]);
  }

  lemma {:induction false} CleanKeepsClean(s: string)
    requires forall i :: 0 <= i < |s| ==> !IsSeparator(s[i])
    ensures Clean(s) == s
  {
    if s != [] {
      CleanKeepsClean(s[1..]);
    }
  }

  /** Ten digits written without separators, starting with `0` and an operator digit,
      are accepted. */
  lemma TenDigitsAccepted(c: string)
    requires |c| == 10 && AllDigits(c) && c[0] == '0' && IsOperatorDigit(c[1])
    ensures ValidAlgerianPhone(c)
  {
    CleanKeepsClean(c);
    assert AllDigits(c[2..]);
  }

  /** The example number of the source's comment is accepted. */
  lemma LocalExampleAccepted()
    ensures ValidAlgerianPhone("0770123456")
  {
    TenDigitsAccepted("0770123456");
  }

  /** A number whose operator digit is 4 is refused. */
  lemma WrongOperatorRejected()
    ensures !ValidAlgerianPhone("0412345678")
  {
    var bad := "0412345678";
    assert Clean(bad) == bad by {
      assert AllDigits(bad);
      CleanKeepsClean(bad);
    }
    assert !IsOperatorDigit(bad[1]);
  }
}
