/** The keys of agent loop outputs: printing `{uid}_{session}_{index}` and taking it apart again. */
module Keys {
  import opened Options

  // ------------------------------------------------------------------ decimal numbers

  const DIGITS := "0123456789"

  function Print(n: nat): (s: string)
    ensures |s| > 0 && forall c | c in s :: c in DIGITS
  {
    if n < 10 then [DIGITS[n]] else Print(n / 10) + [DIGITS[n % 10]]
  }

  function DigitValue(c: char): (d: nat)
    requires c in DIGITS
    ensures d < 10 && DIGITS[d] == c
  {
    c as int - '0' as int
  }

  /** The value of a string of decimal digits. */
  function Parse(s: string): Option<nat> {
    if s == [] || s[|s| - 1] !in DIGITS then None
    else if |s| == 1 then Some(DigitValue(s[0]))
    else match Parse(s[..|s| - 1])
      case None => None
      case Some(n) => Some(10 * n + DigitValue(s[|s| - 1]))
  }

  /** Ten digits, in order: each reads as its distance from '0', and one more digit counts ten times what is
      before it. */
  lemma {:induction false} DigitsMean(s: string, c: char)
    ensures '0' <= c <= '9' <==> Parse([c]).Some?
    ensures '0' <= c <= '9' ==> Parse([c]) == Some(c as int - '0' as int)
    ensures '0' <= c <= '9' && Parse(s).Some? ==> Parse(s + [c]) == Some(10 * Parse(s).value + (c as int - '0' as int))
  {
    assert c in DIGITS <==> '0' <= c <= '9';
    assert (s + [c])[..|s|] == s;
  }

  lemma {:induction false} ParseUndoesPrint(n: nat)
    ensures Parse(Print(n)) == Some(n)
  {
    if n >= 10 {
      ParseUndoesPrint(n / 10);
      assert Print(n)[..|Print(n)| - 1] == Print(n / 10);
    }
  }

  predicate Blank(c: char) {
    9 <= c as int <= 13 || c == ' '
  }

  /** The blank and the five control characters from the tab on. */
  lemma {:induction false} BlanksAre(c: char)
    ensures Blank(c) <==> c in [' ', '\t', '\n', '\U{0B}', '\U{0C}', '\r']
  {
    assert '\t' as int == 9 && '\n' as int == 10 && '\U{0B}' as int == 11 && '\U{0C}' as int == 12;
    assert '\r' as int == 13;
  }

  /** Without the blanks at both ends. */
  function Stripped(s: string): string {
    if s != [] && Blank(s[0]) then Stripped(s[1..])
    else if s != [] && Blank(s[|s| - 1]) then Stripped(s[..|s| - 1])
    else s
  }

  /** `int`: blanks around the number and one sign are accepted. */
  function ParseInt(s: string): Option<int> {
    var t := Stripped(s);
    if t == [] then None
    else if t[0] in "+-" then
      match Parse(t[1..])
      case None => None
      case Some(n) => Some(if t[0] == '-' then 0 - n else n)
    else
      match Parse(t)
      case None => None
      case Some(n) => Some(n)
  }

  lemma {:induction false} StripsBlanks(before: string, s: string, after: string)
    requires s != [] && !Blank(s[0]) && !Blank(s[|s| - 1])
    requires (forall c | c in before :: Blank(c)) && (forall c | c in after :: Blank(c))
    ensures Stripped(before + s + after) == s
    decreases |before|, |after|
  {
    var all := before + s + after;
    if before != [] {
      assert all[0] == before[0] && all[1..] == before[1..] + s + after;
      StripsBlanks(before[1..], s, after);
    } else if after != [] {
      assert all[0] == s[0] && all[|all| - 1] == after[|after| - 1];
      assert all[..|all| - 1] == before + s + after[..|after| - 1];
      StripsBlanks(before, s, after[..|after| - 1]);
    } else {
      assert all == s;
    }
  }

  /** Reading undoes printing, with a sign and blanks around it or without. */
  lemma {:induction false} ParseIntUndoesPrint(before: string, sign: string, n: nat, after: string)
    requires sign in ["", "+", "-"]
    requires (forall c | c in before :: Blank(c)) && (forall c | c in after :: Blank(c))
    ensures ParseInt(before + sign + Print(n) + after) == Some(if sign == "-" then 0 - n else n)
  {
    hide Parse, Print, Stripped, ParseInt;
    var t := sign + Print(n);
    assert before + sign + Print(n) + after == before + t + after;
    EndsAreNoBlanks(sign, n);
    StripsBlanks(before, t, after);
    StrippedIsRead(before + t + after, sign, n);
  }

  lemma {:induction false} EndsAreNoBlanks(sign: string, n: nat)
    requires sign in ["", "+", "-"]
    ensures var t := sign + Print(n); !Blank(t[0]) && !Blank(t[|t| - 1])
  {
    hide Print;
    var p := Print(n);
    assert p[0] in p && p[|p| - 1] in p;
    assert (sign + p)[|sign + p| - 1] == p[|p| - 1];
  }

  lemma {:induction false} StrippedIsRead(s: string, sign: string, n: nat)
    requires sign in ["", "+", "-"] && Stripped(s) == sign + Print(n)
    ensures ParseInt(s) == Some(if sign == "-" then 0 - n else n)
  {
    hide Parse, Print, Stripped;
    ParseUndoesPrint(n);
    var t := sign + Print(n);
    if sign == "" {
      assert t == Print(n);
      assert t[0] in Print(n);
    } else {
      assert t[1..] == Print(n);
    }
  }

  lemma {:induction false} ParseIntOfPrint(n: nat)
    ensures ParseInt(Print(n)) == Some(n)
  {
    ParseIntUndoesPrint("", "", n, "");
    assert "" + "" + Print(n) + "" == Print(n);
  }

  // ------------------------------------------------------------------ splitting from the right

  /** The position of the last underscore, or -1. */
  function LastUnderscore(s: string): (i: int)
    ensures -1 <= i < |s|
    ensures i >= 0 ==> s[i] == '_'
    ensures forall k | i < k < |s| :: s[k] != '_'
  {
    if s == [] then -1
    else if s[|s| - 1] == '_' then |s| - 1
    else LastUnderscore(s[..|s| - 1])
  }

  /** `s.rsplit("_", most)`. */
  function RSplit(s: string, most: nat): (parts: seq<string>)
    ensures 1 <= |parts| <= most + 1
  {
    var i := LastUnderscore(s);
    if most == 0 || i < 0 then [s] else RSplit(s[..i], most - 1) + [s[i + 1..]]
  }

  /** `"_".join(parts)`. */
  function Join(parts: seq<string>): string {
    if parts == [] then ""
    else if |parts| == 1 then parts[0]
    else Join(parts[..|parts| - 1]) + "_" + parts[|parts| - 1]
  }

  lemma {:induction false} JoinSnoc(parts: seq<string>, last: string)
    requires parts != []
    ensures Join(parts + [last]) == Join(parts) + "_" + last
  {
    assert (parts + [last])[..|parts|] == parts;
  }

  lemma {:induction false} JoinUndoesRSplit(s: string, most: nat)
    ensures Join(RSplit(s, most)) == s
  {
    hide Join;
    var i := LastUnderscore(s);
    if most == 0 || i < 0 {
      JoinOne(s);
    } else {
      JoinUndoesRSplit(s[..i], most - 1);
      JoinSnoc(RSplit(s[..i], most - 1), s[i + 1..]);
      assert s == s[..i] + "_" + s[i + 1..];
    }
  }

  lemma {:induction false} JoinOne(s: string)
    ensures Join([s]) == s
  {
  }

  lemma {:induction false} LastIs(s: string, j: nat)
    requires j < |s| && s[j] == '_' && forall k | j < k < |s| :: s[k] != '_'
    ensures LastUnderscore(s) == j
  {
    if j < |s| - 1 {
      LastIs(s[..|s| - 1], j);
    }
  }

  lemma {:induction false} RSplitLast(a: string, b: string, most: nat)
    requires '_' !in b
    ensures RSplit(a + "_" + b, most + 1) == RSplit(a, most) + [b]
  {
    var s := a + "_" + b;
    LastIs(s, |a|);
    assert s[..|a|] == a && s[|a| + 1..] == b;
  }

  // ------------------------------------------------------------------ keys

  /** The key of a session: `{uid}_{session}`. */
  function SessionKey(uid: string, session: nat): string {
    uid + "_" + Print(session)
  }

  /** The key of an output: `{uid}_{session}_{index}`. */
  function OutputKey(uid: string, session: nat, index: nat): string {
    SessionKey(uid, session) + "_" + Print(index)
  }

  /** Splitting a key undoes printing it, whatever the uid contains. */
  lemma {:induction false} SplitUndoesPrint(uid: string, session: nat, index: nat)
    ensures RSplit(OutputKey(uid, session, index), 2) == [uid, Print(session), Print(index)]
    ensures ParseInt(Print(index)) == Some(index) && ParseInt(Print(session)) == Some(session)
  {
    RSplitLast(SessionKey(uid, session), Print(index), 1);
    RSplitLast(uid, Print(session), 0);
    ParseIntOfPrint(index);
    ParseIntOfPrint(session);
  }

  /** Printing the three fields of any key that has three undoes splitting it. */
  lemma {:induction false} PrintUndoesSplit(key: string)
    requires |RSplit(key, 2)| == 3
    ensures var f := RSplit(key, 2); key == f[0] + "_" + f[1] + "_" + f[2]
  {
    var f := RSplit(key, 2);
    JoinUndoesRSplit(key, 2);
    assert f[..2][..1] == [f[0]];
    assert Join(f[..2]) == Join(f[..2][..1]) + "_" + f[1];
  }

  lemma {:induction false} OutputKeyInjective(u: string, s: nat, i: nat, u': string, s': nat, i': nat)
    ensures OutputKey(u, s, i) == OutputKey(u', s', i') <==> u == u' && s == s' && i == i'
  {
    SplitUndoesPrint(u, s, i);
    SplitUndoesPrint(u', s', i');
    if OutputKey(u, s, i) == OutputKey(u', s', i') {
      var f, f' := [u, Print(s), Print(i)], [u', Print(s'), Print(i')];
      assert f[0] == f'[0] && f[1] == f'[1] && f[2] == f'[2];
    }
  }

  lemma {:induction false} SessionKeyInjective(u: string, s: nat, u': string, s': nat)
    ensures SessionKey(u, s) == SessionKey(u', s') <==> u == u' && s == s'
  {
    if SessionKey(u, s) == SessionKey(u', s') {
      assert OutputKey(u, s, 0) == OutputKey(u', s', 0);
      OutputKeyInjective(u, s, 0, u', s', 0);
    }
  }

  lemma {:induction false} OutputKeyIsNoUid(u: string, s: nat, i: nat)
    ensures '_' in OutputKey(u, s, i)
  {
    assert OutputKey(u, s, i)[|u|] == '_';
  }
}
