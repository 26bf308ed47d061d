/** The e-mail format check of the registration handlers: the pattern
    `^[a-zA-Z0-9._%+-]+@[a-zA-Z0-9.-]+\.[a-zA-Z]{2,}$`, tested against the lower-cased
    input. `MatchesPattern` reads the pattern literally (a choice of where the `@` and the
    final `.` fall); `IsValidEmail` is the structural test the model computes with. */
module Email {
  import opened Common

  predicate IsAsciiAlnum(c: char) { IsAsciiLetter(c) || IsAsciiDigit(c) }

  /** `[a-zA-Z0-9._%+-]` */
  predicate IsLocalChar(c: char) { IsAsciiAlnum(c) || c == '.' || c == '_' || c == '%' || c == '+' || c == '-' }

  /** `[a-zA-Z0-9.-]` */
  predicate IsDomainChar(c: char) { IsAsciiAlnum(c) || c == '.' || c == '-' }

  predicate AllLocal(s: string) { forall k :: 0 <= k < |s| ==> IsLocalChar(s[k]) }
  predicate AllDomain(s: string) { forall k :: 0 <= k < |s| ==> IsDomainChar(s[k]) }
  predicate AllLetters(s: string) { forall k :: 0 <= k < |s| ==> IsAsciiLetter(s[k]) }

  /** One way for `s` to match the pattern: `s[..at]` is the local part, `s[at]` the `@`,
      `s[at+1..dot]` the domain body, `s[dot]` the escaped `.`, and `s[dot+1..]` the
      letters of `[a-zA-Z]{2,}`. */
  ghost predicate MatchSplit(s: string, at: int, dot: int)
  {
    && 0 < at && at + 1 < dot && dot + 2 < |s|
    && AllLocal(s[..at]) && s[at] == '@'
    && AllDomain(s[at + 1..dot]) && s[dot] == '.'
    && AllLetters(s[dot + 1..])
  }

  /** The regular expression's meaning: some split matches. */
  ghost predicate MatchesPattern(s: string)
  {
    exists at, dot :: MatchSplit(s, at, dot)
  }

  /** First index of `c` in `s`. */
  function FirstIndexOf(s: string, c: char): (r: Option<nat>)
    ensures r.Some? ==> r.value < |s| && s[r.value] == c && forall k :: 0 <= k < r.value ==> s[k] != c
    ensures r.None? ==> forall k :: 0 <= k < |s| ==> s[k] != c
  {
    if |s| == 0 then None
    else if s[0] == c then Some(0)
    else match FirstIndexOf(s[1..], c)
      case None => None
      case Some(i) => Some(i + 1)
  }

  /** Last index of `c` in `s`. */
  function LastIndexOf(s: string, c: char): (r: Option<nat>)
    ensures r.Some? ==> r.value < |s| && s[r.value] == c && forall k :: r.value < k < |s| ==> s[k] != c
    ensures r.None? ==> forall k :: 0 <= k < |s| ==> s[k] != c
  {
    if |s| == 0 then None
    else if s[|s| - 1] == c then Some(|s| - 1)
    else LastIndexOf(s[..|s| - 1], c)
  }

  /** The part after the `@`: over `[a-zA-Z0-9.-]`, and its last `.` has a non-empty
      prefix and a suffix of at least two ASCII letters. */
  predicate DomainOk(d: string)
  {
    && AllDomain(d)
    && match LastIndexOf(d, '.')
       case None => false
       case Some(dot) => dot > 0 && |d| - dot - 1 >= 2 && AllLetters(d[dot + 1..])
  }

  /** The structural reading: a non-empty local part over `[a-zA-Z0-9._%+-]` before the
      first `@`, and a well-formed domain after it. */
  function IsValidEmail(s: string): bool
  {
    match FirstIndexOf(s, '@')
    case None => false
    case Some(at) => at > 0 && AllLocal(s[..at]) && DomainOk(s[at + 1..])
  }

  /** Number of `@` characters in `s`. */
  function CountAt(s: string): nat
  {
    if |s| == 0 then 0 else (if s[0] == '@' then 1 else 0) + CountAt(s[1..])
  }

  lemma {:induction false} CountAtZero(s: string)
    requires forall k :: 0 <= k < |s| ==> s[k] != '@'
    ensures CountAt(s) == 0
  {
    if |s| > 0 { CountAtZero(s[1..]); }
  }

  lemma {:induction false} CountAtSplit(s: string, at: nat)
    requires at < |s| && s[at] == '@'
    requires forall k :: 0 <= k < |s| && k != at ==> s[k] != '@'
    ensures CountAt(s) == 1
  {
    if at == 0 {
      CountAtZero(s[1..]);
    } else {
      CountAtSplit(s[1..], at - 1);
    }
  }

  lemma StructuralToPattern(s: string)
    requires IsValidEmail(s)
    ensures MatchesPattern(s)
  {
    var at := FirstIndexOf(s, '@').value;
    var domain := s[at + 1..];
    var dot := LastIndexOf(domain, '.').value;
    assert s[at + 1..at + 1 + dot] == domain[..dot];
    assert AllDomain(domain[..dot]);
    assert s[at + 1 + dot + 1..] == domain[dot + 1..];
    assert MatchSplit(s, at, at + 1 + dot);
  }

  lemma PatternFirstAt(s: string, at: int, dot: int)
    requires MatchSplit(s, at, dot)
    ensures FirstIndexOf(s, '@') == Some(at)
  {
    assert forall k :: 0 <= k < at ==> s[..at][k] == s[k];
  }

  lemma PatternDomain(s: string, at: int, dot: int)
    requires MatchSplit(s, at, dot)
    ensures DomainOk(s[at + 1..])
  {
    var domain := s[at + 1..];
    forall k | 0 <= k < |domain| ensures IsDomainChar(domain[k]) {
      if at + 1 + k < dot {
        assert domain[k] == s[at + 1..dot][k];
      } else if at + 1 + k > dot {
        assert domain[k] == s[dot + 1..][at + k - dot];
      }
    }
    forall k | dot - at - 1 < k < |domain| ensures domain[k] != '.' {
      assert domain[k] == s[dot + 1..][at + k - dot];
    }
    assert LastIndexOf(domain, '.') == Some(dot - at - 1);
    assert domain[dot - at..] == s[dot + 1..];
  }

  /** The structural test accepts exactly the strings the regular expression matches. */
  lemma IsValidEmailMatchesPattern(s: string)
    ensures IsValidEmail(s) <==> MatchesPattern(s)
  {
    if IsValidEmail(s) {
      StructuralToPattern(s);
    }
    if MatchesPattern(s) {
      var at, dot :| MatchSplit(s, at, dot);
      PatternFirstAt(s, at, dot);
      PatternDomain(s, at, dot);
    }
  }

  /** The parts `IsValidEmail` accepts, stated about the first `@`. */
  lemma ValidEmailParts(s: string) returns (at: nat)
    requires IsValidEmail(s)
    ensures 0 < at < |s| && s[at] == '@' && AllLocal(s[..at]) && AllDomain(s[at + 1..])
    ensures forall k :: 0 <= k < at ==> s[k] != '@'
  {
    at := FirstIndexOf(s, '@').value;
  }

  /** After the first `@` of an accepted address there is no other. */
  lemma OnlyOneAt(s: string, at: nat)
    requires at < |s| && AllDomain(s[at + 1..])
    ensures forall k :: at < k < |s| ==> s[k] != '@'
  {
    var domain := s[at + 1..];
    forall k | at < k < |s| ensures s[k] != '@' {
      assert s[k] == domain[k - at - 1];
      assert IsDomainChar(domain[k - at - 1]);
    }
  }

  /** An accepted address has exactly one `@`, with a non-empty local part before it. */
  lemma ValidEmailHasOneAt(s: string)
    requires IsValidEmail(s)
    ensures CountAt(s) == 1
    ensures exists at :: 0 < at < |s| && s[at] == '@' && AllLocal(s[..at])
  {
    var at := ValidEmailParts(s);
    OnlyOneAt(s, at);
    CountAtSplit(s, at);
  }

  lemma LowerPreservesClasses(c: char)
    ensures IsLocalChar(ToLowerChar(c)) <==> IsLocalChar(c)
    ensures IsDomainChar(ToLowerChar(c)) <==> IsDomainChar(c)
    ensures IsAsciiLetter(ToLowerChar(c)) <==> IsAsciiLetter(c)
    ensures (ToLowerChar(c) == '@') <==> (c == '@')
    ensures (ToLowerChar(c) == '.') <==> (c == '.')
  {
  }

  /** `t` has, position by position, the same character classes as `s`. */
  predicate SameClasses(s: string, t: string)
  {
    && |s| == |t|
    && (forall k :: 0 <= k < |s| ==> (IsLocalChar(s[k]) <==> IsLocalChar(t[k])))
    && (forall k :: 0 <= k < |s| ==> (IsDomainChar(s[k]) <==> IsDomainChar(t[k])))
    && (forall k :: 0 <= k < |s| ==> (IsAsciiLetter(s[k]) <==> IsAsciiLetter(t[k])))
    && (forall k :: 0 <= k < |s| ==> (s[k] == '@' <==> t[k] == '@'))
    && (forall k :: 0 <= k < |s| ==> (s[k] == '.' <==> t[k] == '.'))
  }

  /** A split that matches `s` matches any string with the same character classes. */
  lemma SplitTransfers(s: string, t: string, at: int, dot: int)
    requires SameClasses(s, t) && MatchSplit(s, at, dot)
    ensures MatchSplit(t, at, dot)
  {
    forall k | 0 <= k < at ensures IsLocalChar(t[..at][k]) {
      assert s[..at][k] == s[k];
    }
    var body, tld := t[at + 1..dot], t[dot + 1..];
    forall k | 0 <= k < |body| ensures IsDomainChar(body[k]) {
      assert s[at + 1..dot][k] == s[at + 1 + k];
    }
    forall k | 0 <= k < |tld| ensures IsAsciiLetter(tld[k]) {
      assert s[dot + 1..][k] == s[dot + 1 + k];
    }
  }

  /** Lower-casing the ASCII letters before the test changes nothing, because the pattern
      lists both cases of every letter. JavaScript's `toLowerCase` also maps some non-ASCII
      characters to ASCII letters (the Kelvin sign to "k"), which this model does not
      capture. */
  lemma LowerCaseIrrelevant(s: string)
    ensures MatchesPattern(ToLowerAscii(s)) <==> MatchesPattern(s)
  {
    var t := ToLowerAscii(s);
    forall k | 0 <= k < |s| ensures
      && (IsLocalChar(t[k]) <==> IsLocalChar(s[k]))
      && (IsDomainChar(t[k]) <==> IsDomainChar(s[k]))
      && (IsAsciiLetter(t[k]) <==> IsAsciiLetter(s[k]))
      && ((t[k] == '@') <==> (s[k] == '@'))
      && ((t[k] == '.') <==> (s[k] == '.'))
    {
      LowerPreservesClasses(s[k]);
    }
    assert SameClasses(s, t);
    assert SameClasses(t, s);
    if MatchesPattern(s) {
      var at, dot :| MatchSplit(s, at, dot);
      SplitTransfers(s, t, at, dot);
    }
    if MatchesPattern(t) {
      var at, dot :| MatchSplit(t, at, dot);
      SplitTransfers(t, s, at, dot);
    }
  }

  /** `emailRegex.test(email.toLowerCase())`, the check both registration handlers run. */
  function EmailAccepted(email: string): (ok: bool)
    ensures ok <==> MatchesPattern(email)
  {
    IsValidEmailMatchesPattern(ToLowerAscii(email));
    LowerCaseIrrelevant(email);
    IsValidEmail(ToLowerAscii(email))
  }
}
