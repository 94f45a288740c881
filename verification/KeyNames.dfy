/** The names `Key 1`, `Key 2`, ... given to API keys created without one. */
module KeyNames {
  import opened Options
  import opened ApiKeyProtocol

  predicate IsDigit(c: char) {
    '0' <= c <= '9'
  }

  predicate AllDigits(s: string) {
    forall i | 0 <= i < |s| :: IsDigit(s[i])
  }

  function ToDecimal(n: nat): string {
    if n < 10 then [(n as char) + '0'] else ToDecimal(n / 10) + [((n % 10) as char) + '0']
  }

  function ParseDecimal(s: string): nat
    requires AllDigits(s)
  {
    if s == [] then 0 else 10 * ParseDecimal(s[..|s| - 1]) + (s[|s| - 1] - '0') as nat
  }

  lemma {:induction false} ParseInvertsToDecimal(n: nat)
    ensures AllDigits(ToDecimal(n)) && |ToDecimal(n)| > 0 && ParseDecimal(ToDecimal(n)) == n
  {
    if n < 10 {
      assert ToDecimal(n)[..0] == [];
    } else {
      ParseInvertsToDecimal(n / 10);
      var s := ToDecimal(n);
      assert s[..|s| - 1] == ToDecimal(n / 10);
    }
  }

  const STEM := "Key "

  /** The number in a name matching `^Key (\d+)$`, where `$` tolerates one final newline. */
  function KeyNumber(name: string): Option<nat> {
    var s := if |name| > 0 && name[|name| - 1] == '\n' then name[..|name| - 1] else name;
    if |s| > 4 && s[..4] == STEM && AllDigits(s[4..]) then Some(ParseDecimal(s[4..])) else None
  }

  /** A number is read from exactly the names made of the stem and digits, with or without a final newline. */
  lemma KeyNumberReads(rest: string)
    requires rest == "" || rest[|rest| - 1] != '\n'
    ensures KeyNumber("Key " + rest) == if rest != "" && AllDigits(rest) then Some(ParseDecimal(rest)) else None
    ensures KeyNumber("Key " + rest + "\n") == KeyNumber("Key " + rest)
  {
    var s := "Key " + rest;
    assert s[..4] == "Key " && s[4..] == rest;
    assert (s + "\n")[..|s|] == s;
  }

  function NumberedName(n: nat): string {
    STEM + ToDecimal(n)
  }

  lemma NumberOfNumberedName(n: nat)
    ensures KeyNumber(NumberedName(n)) == Some(n)
  {
    ParseInvertsToDecimal(n);
    var s := NumberedName(n);
    assert s[4..] == ToDecimal(n);
    assert IsDigit(s[|s| - 1]);
  }

  /** Python's `name.strip()`, on ASCII white space. */
  function Strip(s: string): string {
    if s != [] && IsSpace(s[0]) then Strip(s[1..])
    else if s != [] && IsSpace(s[|s| - 1]) then Strip(s[..|s| - 1])
    else s
  }

  predicate AllSpace(s: string) {
    forall i | 0 <= i < |s| :: IsSpace(s[i])
  }

  lemma PutBack(c: char, rest: string, before: string, mid: string, after: string)
    requires rest == before + mid + after
    ensures [c] + rest == ([c] + before) + mid + after && rest + [c] == before + mid + (after + [c])
  {
  }

  lemma {:induction false} StripSplits(s: string) returns (before: string, after: string)
    ensures s == before + Strip(s) + after && AllSpace(before) && AllSpace(after)
  {
    before, after := "", "";
    if s != [] && IsSpace(s[0]) {
      before, after := StripSplits(s[1..]);
      PutBack(s[0], s[1..], before, Strip(s), after);
      before := [s[0]] + before;
    } else if s != [] && IsSpace(s[|s| - 1]) {
      before, after := StripSplits(s[..|s| - 1]);
      PutBack(s[|s| - 1], s[..|s| - 1], before, Strip(s), after);
      after := after + [s[|s| - 1]];
    } else {
      assert s == before + Strip(s) + after;
    }
  }

  lemma {:induction false} StripEnds(s: string)
    ensures Strip(s) == "" || (!IsSpace(Strip(s)[0]) && !IsSpace(Strip(s)[|Strip(s)| - 1]))
  {
    if s != [] && IsSpace(s[0]) {
      StripEnds(s[1..]);
    } else if s != [] && IsSpace(s[|s| - 1]) {
      StripEnds(s[..|s| - 1]);
    }
  }

  lemma Blanks(c: char)
    ensures c in " \t\n\r" ==> IsSpace(c)
    ensures IsSpace(c) ==> c <= ' '
  {
  }

  /** Only white space is taken off, and all of it at both ends. */
  lemma StripTrims(s: string) returns (before: string, after: string)
    ensures s == before + Strip(s) + after && forall c | c in before + after :: c <= ' '
    ensures Strip(s) == "" || (Strip(s)[0] !in " \t\n\r" && Strip(s)[|Strip(s)| - 1] !in " \t\n\r")
  {
    before, after := StripSplits(s);
    StripEnds(s);
    forall c | c in before + after ensures c <= ' ' {
      Blanks(c);
    }
    if Strip(s) != "" {
      Blanks(Strip(s)[0]);
      Blanks(Strip(s)[|Strip(s)| - 1]);
    }
  }

  predicate IsSpace(c: char) {
    c == ' ' || '\t' <= c <= '\r' || '\U{1C}' <= c <= '\U{1F}'
  }
}
