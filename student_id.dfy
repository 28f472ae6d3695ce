/** The student-ID check of `verify_student_id`: the sentinel "XX" means the
    notebook is not configured yet, a decimal number from 1 to 30 is accepted,
    and anything else is rejected. The configuration fields are echoed to the
    console only on acceptance; the model keeps whether they are echoed, not
    the text. */
module StudentId {
  import opened Ascii

  /** The placeholder the notebook ships with. */
  const SENTINEL := "XX"
  /** The inclusive range of assigned IDs. */
  const MIN_ID := 1
  const MAX_ID := 30

  datatype Outcome = NotConfigured | Rejected | Accepted

  /** What one call decides: the branch taken and whether the configuration
      fields (host, user, password, port, database, schema) are printed. */
  datatype Report = Report(outcome: Outcome, echoed: bool)

  /** `s.isdigit()` on ASCII text: non-empty and every character a digit. */
  predicate IsDigits(s: string) {
    |s| > 0 && AllDigits(s)
  }

  predicate AllDigits(s: string) {
    forall i :: 0 <= i < |s| ==> IsDigit(s[i])
  }

  function DigitValue(c: char): (d: nat)
    requires IsDigit(c)
    ensures d < 10
  {
    c as int - '0' as int
  }

  function DigitChar(d: nat): (c: char)
    requires d < 10
    ensures IsDigit(c) && DigitValue(c) == d
  {
    ('0' as int + d) as char
  }

  /** `int(s)` for a string of decimal digits, with no bound on the number of
      digits: the 4300-digit limit that recent Python versions impose on
      `int()` is not modelled. */
  function DecimalValue(s: string): nat
    requires AllDigits(s)
  {
    if s == [] then 0 else 10 * DecimalValue(s[..|s| - 1]) + DigitValue(s[|s| - 1])
  }

  /** `verify_student_id`: `flag` starts false and is set only in the accepting
      branch; the fields are printed iff `flag`. `int` is evaluated only when
      `isdigit` holds, because `or` short-circuits. */
  function VerifyStudentId(id: string): (r: Report)
    requires IsAscii(id)
  {
    if id == SENTINEL then Report(NotConfigured, false)
    else if !IsDigits(id) || !(MIN_ID <= DecimalValue(id) <= MAX_ID) then Report(Rejected, false)
    else Report(Accepted, true)
  }

  // ---------------------------------------------------------------------------
  // The three branches

  /** The branches partition all ASCII inputs, each with its own condition,
      and the fields are echoed exactly on acceptance. */
  lemma Classification(id: string)
    requires IsAscii(id)
    ensures VerifyStudentId(id).outcome == NotConfigured <==> id == SENTINEL
    ensures VerifyStudentId(id).outcome == Accepted <==>
              id != SENTINEL && IsDigits(id) && MIN_ID <= DecimalValue(id) <= MAX_ID
    ensures VerifyStudentId(id).outcome == Rejected <==>
              id != SENTINEL && !(IsDigits(id) && MIN_ID <= DecimalValue(id) <= MAX_ID)
    ensures VerifyStudentId(id).echoed <==> VerifyStudentId(id).outcome == Accepted
  {
  }

  /** The sentinel is reported as not configured and nothing is echoed. */
  lemma SentinelIsNotConfigured()
    ensures VerifyStudentId(SENTINEL) == Report(NotConfigured, false)
  {
  }

  /** Sample inputs: zero-padded and plain IDs in range are accepted; the empty
      string, 0, 31, letters, a space or sign before the digits and the
      lower-case sentinel are rejected. */
  lemma Examples()
    ensures VerifyStudentId("01") == Report(Accepted, true)
    ensures VerifyStudentId("15") == Report(Accepted, true)
    ensures VerifyStudentId("30") == Report(Accepted, true)
    ensures VerifyStudentId("0015") == Report(Accepted, true)
    ensures VerifyStudentId("") == Report(Rejected, false)
    ensures VerifyStudentId("0") == Report(Rejected, false)
    ensures VerifyStudentId("31") == Report(Rejected, false)
    ensures VerifyStudentId("abc") == Report(Rejected, false)
    ensures VerifyStudentId(" 5") == Report(Rejected, false)
    ensures VerifyStudentId("+5") == Report(Rejected, false)
    ensures VerifyStudentId("xx") == Report(Rejected, false)
  {
    assert !IsDigit('a') && !IsDigit(' ') && !IsDigit('+') && !IsDigit('x');
    assert DecimalValue("0") == 0 by { assert "0"[..0] == ""; }
    assert DecimalValue("1") == 1 by { assert "1"[..0] == ""; }
    assert DecimalValue("3") == 3 by { assert "3"[..0] == ""; }
    assert DecimalValue("01") == 1 by { assert "01"[..1] == "0"; }
    assert DecimalValue("15") == 15 by { assert "15"[..1] == "1"; }
    assert DecimalValue("30") == 30 by { assert "30"[..1] == "3"; }
    assert DecimalValue("31") == 31 by { assert "31"[..1] == "3"; }
    assert DecimalValue("00") == 0 by { assert "00"[..1] == "0"; }
    assert DecimalValue("001") == 1 by { assert "001"[..2] == "00"; }
    assert DecimalValue("0015") == 15 by { assert "0015"[..3] == "001"; }
  }

  // ---------------------------------------------------------------------------
  // An independent description of the accepted IDs: a canonical numeral from
  // 1 to 30, preceded by any number of zeros.

  function Zeros(k: nat): (z: string)
    ensures |z| == k && forall i :: 0 <= i < k ==> z[i] == '0'
  {
    if k == 0 then [] else Zeros(k - 1) + ['0']
  }

  /** The decimal numeral of `n` without leading zeros. */
  function Numeral(n: nat): (s: string)
    requires n >= 1
    ensures |s| > 0 && AllDigits(s) && s[0] != '0'
  {
    if n < 10 then [DigitChar(n)] else Numeral(n / 10) + [DigitChar(n % 10)]
  }

  /** `s` is `t` padded on the left with zeros. */
  predicate PaddedTo(s: string, t: string) {
    |t| <= |s| && s == Zeros(|s| - |t|) + t
  }

  /** An ID is accepted iff it is a zero-padded numeral of a number from 1 to 30. */
  lemma AcceptedIffPaddedNumeral(id: string)
    requires IsAscii(id)
    ensures VerifyStudentId(id).outcome == Accepted <==> IsPaddedId(id)
  {
    if VerifyStudentId(id).outcome == Accepted {
      AcceptedIsPadded(id);
    }
    if IsPaddedId(id) {
      PaddedIsAccepted(id);
    }
  }

  /** A numeral from 1 to 30 with any number of leading zeros. */
  ghost predicate IsPaddedId(id: string) {
    exists n :: MIN_ID <= n <= MAX_ID && PaddedTo(id, Numeral(n))
  }

  lemma AcceptedIsPadded(id: string)
    requires IsAscii(id) && VerifyStudentId(id).outcome == Accepted
    ensures IsPaddedId(id)
  {
    var v := DecimalValue(id);
    PositiveIsPadded(id);
    assert MIN_ID <= v <= MAX_ID && PaddedTo(id, Numeral(v));
  }

  lemma PaddedIsAccepted(id: string)
    requires IsAscii(id) && IsPaddedId(id)
    ensures VerifyStudentId(id).outcome == Accepted
  {
    var n :| MIN_ID <= n <= MAX_ID && PaddedTo(id, Numeral(n));
    var t := Numeral(n);
    var k := |id| - |t|;
    PaddedValue(k, t);
    NumeralValue(n);
    assert IsDigit(id[0]);
  }

  /** A digit string with a positive value is its value's numeral, zero-padded. */
  lemma PositiveIsPadded(id: string)
    requires AllDigits(id) && DecimalValue(id) >= 1
    ensures PaddedTo(id, Numeral(DecimalValue(id)))
  {
    var k := LeadingZeros(id);
    LeadingZerosSplit(id);
    var t := id[k..];
    assert AllDigits(t) by {
      forall i | 0 <= i < |t| ensures IsDigit(t[i]) {
        assert t[i] == id[k + i];
      }
    }
    PaddedValue(k, t);
    assert DecimalValue(t) == DecimalValue(id);
    CanonicalNumeral(t);
    assert |id| - |t| == k;
  }

  /** The numeral of `n` reads back as `n`. */
  lemma {:induction false} NumeralValue(n: nat)
    requires n >= 1
    ensures DecimalValue(Numeral(n)) == n
  {
    var s := Numeral(n);
    if n >= 10 {
      NumeralValue(n / 10);
      assert s[..|s| - 1] == Numeral(n / 10);
    }
  }

  /** Leading zeros do not change the value. */
  lemma {:induction false} PaddedValue(k: nat, t: string)
    requires AllDigits(t)
    ensures AllDigits(Zeros(k) + t)
    ensures DecimalValue(Zeros(k) + t) == DecimalValue(t)
  {
    if k > 0 {
      PaddedValue(k - 1, t);
      ZerosCons(k - 1);
      var u := Zeros(k - 1) + t;
      assert Zeros(k) + t == ['0'] + u;
      LeadingZeroValue(u);
      calc {
        DecimalValue(Zeros(k) + t);
        DecimalValue(['0'] + u);
        DecimalValue(u);
        DecimalValue(t);
      }
    } else {
      assert Zeros(k) + t == t;
    }
  }

  lemma {:induction false} LeadingZeroValue(t: string)
    requires AllDigits(t)
    ensures AllDigits(['0'] + t) && DecimalValue(['0'] + t) == DecimalValue(t)
  {
    var s := ['0'] + t;
    if t != [] {
      assert s[..|s| - 1] == ['0'] + t[..|t| - 1];
      LeadingZeroValue(t[..|t| - 1]);
    }
  }

  /** A digit string that does not start with '0' is the numeral of its value. */
  lemma {:induction false} CanonicalNumeral(t: string)
    requires |t| > 0 && AllDigits(t) && t[0] != '0'
    ensures DecimalValue(t) >= 1 && Numeral(DecimalValue(t)) == t
  {
    var v := DecimalValue(t);
    if |t| == 1 {
      assert t[..0] == [] && DecimalValue(t[..0]) == 0;
      assert v == DigitValue(t[0]);
      assert [DigitChar(v)] == t;
    } else {
      var p := t[..|t| - 1];
      CanonicalNumeral(p);
      assert v / 10 == DecimalValue(p) && v % 10 == DigitValue(t[|t| - 1]);
      assert DigitChar(v % 10) == t[|t| - 1];
      assert t == p + [t[|t| - 1]];
    }
  }

  /** The number of '0' characters at the front of `s`. */
  function LeadingZeros(s: string): (k: nat)
    ensures k <= |s|
  {
    if s != [] && s[0] == '0' then 1 + LeadingZeros(s[1..]) else 0
  }

  lemma {:induction false} LeadingZerosSplit(s: string)
    ensures s == Zeros(LeadingZeros(s)) + s[LeadingZeros(s)..]
    ensures LeadingZeros(s) < |s| ==> s[LeadingZeros(s)] != '0'
  {
    if s != [] && s[0] == '0' {
      LeadingZerosSplit(s[1..]);
      var k := LeadingZeros(s[1..]);
      assert Zeros(k + 1) == ['0'] + Zeros(k) by {
        ZerosCons(k);
      }
    }
  }

  lemma {:induction false} ZerosCons(k: nat)
    ensures Zeros(k + 1) == ['0'] + Zeros(k)
  {
    if k > 0 {
      ZerosCons(k - 1);
    }
  }
}
