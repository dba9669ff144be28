/** The email check shared by the login and registration pages: the regular
    expression `^[^\s@]+@[^\s@]+\.[^\s@]+$` tested against the lower-cased
    input. The expression is decided by the deterministic automaton it
    compiles to (`Run`), and that automaton is proved to accept exactly the
    regular language written as the expression's own concatenation
    (`InPatternLanguage`). */
module EmailPattern {

  /** JavaScript's `\s`: the WhiteSpace and LineTerminator code points of ECMAScript. */
  predicate IsWhitespace(c: char) {
    || c == '\t' || c == '\n' || c == '\U{000B}' || c == '\U{000C}' || c == '\r' || c == ' '
    || c == '\U{00A0}' || c == '\U{1680}' || ('\U{2000}' <= c <= '\U{200A}')
    || c == '\U{2028}' || c == '\U{2029}' || c == '\U{202F}' || c == '\U{205F}'
    || c == '\U{3000}' || c == '\U{FEFF}'
  }

  /** The character class `[^\s@]`. */
  predicate IsPlain(c: char) {
    !IsWhitespace(c) && c != '@'
  }

  /** `t` matches `[^\s@]*`. */
  predicate AllPlain(t: string) {
    forall i :: 0 <= i < |t| ==> IsPlain(t[i])
  }

  /** The part after the '@', `[^\s@]+\.[^\s@]+`: plain characters with a '.'
      that is neither the first nor the last one. */
  predicate IsDomain(d: string) {
    AllPlain(d) && exists i :: 0 < i < |d| - 1 && d[i] == '.'
  }

  /** The language of the expression, read as a concatenation: a non-empty
      plain run, '@', a non-empty plain run, '.', a non-empty plain run. */
  predicate InPatternLanguage(s: string) {
    exists i, j ::
      && 0 < i && i + 1 < j && j + 1 < |s|
      && s[i] == '@' && s[j] == '.'
      && AllPlain(s[..i]) && AllPlain(s[i + 1..j]) && AllPlain(s[j + 1..])
  }

  /** States of the automaton the expression compiles to. */
  datatype State =
    | Start    // nothing read yet
    | Local    // one or more characters before the '@'
    | AfterAt  // the '@' was the last character read
    | Host     // one or more domain characters, none usable as the separating '.'
    | HostDot  // a '.' read after at least one domain character
    | Tld      // a separating '.' followed by at least one character: accepting
    | Dead

  function Step(q: State, c: char): State {
    if IsWhitespace(c) then Dead
    else match q
      case Start => if c == '@' then Dead else Local
      case Local => if c == '@' then AfterAt else Local
      case AfterAt => if c == '@' then Dead else Host
      case Host => if c == '@' then Dead else if c == '.' then HostDot else Host
      case HostDot => if c == '@' then Dead else Tld
      case Tld => if c == '@' then Dead else Tld
      case Dead => Dead
  }

  function Run(q: State, s: string): State
    decreases |s|
  {
    if s == [] then q else Run(Step(q, s[0]), s[1..])
  }

  /** `re.test(s)` for the expression above. */
  predicate RegexTest(s: string) {
    Run(Start, s) == Tld
  }

  /** The remaining inputs that take the automaton from `q` to acceptance. */
  predicate Accepts(q: State, t: string) {
    match q
    case Start => exists k :: 0 < k < |t| && t[k] == '@' && AllPlain(t[..k]) && IsDomain(t[k + 1..])
    case Local => exists k :: 0 <= k < |t| && t[k] == '@' && AllPlain(t[..k]) && IsDomain(t[k + 1..])
    case AfterAt => IsDomain(t)
    case Host => AllPlain(t) && exists k :: 0 <= k < |t| - 1 && t[k] == '.'
    case HostDot => 0 < |t| && AllPlain(t)
    case Tld => AllPlain(t)
    case Dead => false
  }

  lemma AllPlainCons(c: char, t: string)
    ensures AllPlain([c] + t) <==> IsPlain(c) && AllPlain(t)
  {
    var u := [c] + t;
    if IsPlain(c) && AllPlain(t) {
      forall i | 0 <= i < |u| ensures IsPlain(u[i]) {
        if i > 0 { assert u[i] == t[i - 1]; }
      }
    }
    if AllPlain(u) {
      assert IsPlain(u[0]);
      forall i | 0 <= i < |t| ensures IsPlain(t[i]) { assert t[i] == u[i + 1]; }
    }
  }

  /** Reading `c` from `q` leaves exactly the suffixes `q` accepted after `c`. */
  lemma StepAccepts(q: State, c: char, t: string)
    ensures Accepts(q, [c] + t) <==> Accepts(Step(q, c), t)
  {
    var u := [c] + t;
    assert u[0] == c && u[1..] == t;
    AllPlainCons(c, t);
    match q {
      case Start =>
        StepLocal(c, t, 1);
      case Local =>
        StepLocal(c, t, 0);
      case AfterAt =>
        if IsPlain(c) {
          if Accepts(q, u) {
            var k :| 0 < k < |u| - 1 && u[k] == '.';
            assert t[k - 1] == '.';
          }
          if Accepts(Host, t) {
            var k :| 0 <= k < |t| - 1 && t[k] == '.';
            assert u[k + 1] == '.';
          }
        }
      case Host =>
        if IsPlain(c) && c != '.' {
          if Accepts(q, u) {
            var k :| 0 <= k < |u| - 1 && u[k] == '.';
            assert k > 0 && t[k - 1] == '.';
          }
          if Accepts(Host, t) {
            var k :| 0 <= k < |t| - 1 && t[k] == '.';
            assert u[k + 1] == '.';
          }
        }
      case HostDot =>
      case Tld =>
      case Dead =>
    }
  }

  /** The '@'-seeking states: `Start` (`lo == 1`, the local part may not be
      empty) and `Local` (`lo == 0`). */
  predicate SeeksAt(lo: nat, u: string) {
    exists k :: lo <= k < |u| && u[k] == '@' && AllPlain(u[..k]) && IsDomain(u[k + 1..])
  }

  lemma StepLocal(c: char, t: string, lo: nat)
    requires lo <= 1
    ensures SeeksAt(lo, [c] + t) <==> Accepts(Step(if lo == 1 then Start else Local, c), t)
  {
    var u := [c] + t;
    if SeeksAt(lo, u) {
      var k :| lo <= k < |u| && u[k] == '@' && AllPlain(u[..k]) && IsDomain(u[k + 1..]);
      if k == 0 {
        assert u[1..] == t;
      } else {
        ConsSeeksAt(c, t, k);
      }
    }
    if IsPlain(c) && Accepts(Local, t) {
      var k :| 0 <= k < |t| && t[k] == '@' && AllPlain(t[..k]) && IsDomain(t[k + 1..]);
      ConsPlain(c, t, k);
    }
    if c == '@' && lo == 0 && IsDomain(t) {
      assert u[..0] == [] && u[1..] == t && u[0] == '@';
    }
  }

  /** An '@' at `k > 0` in `[c] + t`, after plain text, is one at `k - 1` in `t`. */
  lemma ConsSeeksAt(c: char, t: string, k: int)
    requires 0 < k < |t| + 1 && t[k - 1] == '@'
    requires AllPlain(([c] + t)[..k]) && IsDomain(([c] + t)[k + 1..])
    ensures IsPlain(c) && Accepts(Local, t)
  {
    var u := [c] + t;
    assert u[..k] == [c] + t[..k - 1];
    AllPlainCons(c, t[..k - 1]);
    assert u[k + 1..] == t[k..];
  }

  /** The converse: a plain `c` in front keeps the '@' usable, one place later. */
  lemma ConsPlain(c: char, t: string, k: int)
    requires IsPlain(c)
    requires 0 <= k < |t| && t[k] == '@' && AllPlain(t[..k]) && IsDomain(t[k + 1..])
    ensures SeeksAt(1, [c] + t) && SeeksAt(0, [c] + t)
  {
    var u := [c] + t;
    assert u[..k + 1] == [c] + t[..k];
    AllPlainCons(c, t[..k]);
    assert u[k + 2..] == t[k + 1..];
    assert u[k + 1] == '@';
  }

  /** The automaton run from `q` ends accepting exactly on the suffixes `q` accepts. */
  lemma {:induction false} RunAccepts(q: State, t: string)
    ensures Run(q, t) == Tld <==> Accepts(q, t)
    decreases |t|
  {
    if t != [] {
      RunAccepts(Step(q, t[0]), t[1..]);
      assert [t[0]] + t[1..] == t;
      StepAccepts(q, t[0], t[1..]);
    }
  }

  /** A domain splits at its separating '.' into two non-empty plain runs. */
  lemma DomainSplit(d: string, m: int)
    requires 0 < m < |d| - 1 && d[m] == '.'
    ensures IsDomain(d) <==> AllPlain(d[..m]) && AllPlain(d[m + 1..])
  {
    if AllPlain(d[..m]) && AllPlain(d[m + 1..]) {
      forall i | 0 <= i < |d| ensures IsPlain(d[i]) {
        if i < m { assert d[i] == d[..m][i]; }
        else if i > m { assert d[i] == d[m + 1..][i - m - 1]; }
      }
    }
  }

  /** The automaton decides the expression's language. */
  lemma RegexTestIsPattern(s: string)
    ensures RegexTest(s) <==> InPatternLanguage(s)
  {
    RunAccepts(Start, s);
    if Accepts(Start, s) {
      AcceptedIsPattern(s);
    }
    if InPatternLanguage(s) {
      PatternIsAccepted(s);
    }
  }

  lemma AcceptedIsPattern(s: string)
    requires Accepts(Start, s)
    ensures InPatternLanguage(s)
  {
    var k :| 0 < k < |s| && s[k] == '@' && AllPlain(s[..k]) && IsDomain(s[k + 1..]);
    var d := s[k + 1..];
    var m :| 0 < m < |d| - 1 && d[m] == '.';
    DomainSplit(d, m);
    var j := k + 1 + m;
    assert d[..m] == s[k + 1..j] && d[m + 1..] == s[j + 1..];
    assert s[j] == '.';
    assert 0 < k && k + 1 < j && j + 1 < |s|;
  }

  lemma PatternIsAccepted(s: string)
    requires InPatternLanguage(s)
    ensures Accepts(Start, s)
  {
    var i, j :| && 0 < i && i + 1 < j && j + 1 < |s|
                && s[i] == '@' && s[j] == '.'
                && AllPlain(s[..i]) && AllPlain(s[i + 1..j]) && AllPlain(s[j + 1..]);
    var d := s[i + 1..];
    var m := j - i - 1;
    assert d[m] == '.';
    assert d[..m] == s[i + 1..j] && d[m + 1..] == s[j + 1..];
    DomainSplit(d, m);
    assert IsDomain(s[i + 1..]);
  }

  /** The expression's answer for `local + "@" + domain`, where `local` holds
      no '@' (so the '@' shown is the first one of the string). */
  lemma SplitAtFirstAt(local: string, domain: string)
    requires '@' !in local
    ensures RegexTest(local + "@" + domain) <==> 0 < |local| && AllPlain(local) && IsDomain(domain)
  {
    var s := local + "@" + domain;
    var n := |local|;
    RunAccepts(Start, s);
    assert s[n] == '@' && s[..n] == local && s[n + 1..] == domain;
    if Accepts(Start, s) {
      var k :| 0 < k < |s| && s[k] == '@' && AllPlain(s[..k]) && IsDomain(s[k + 1..]);
      FirstAtIsUnique(local, domain, k);
    }
  }

  /** In `local + "@" + domain` with no '@' in `local`, an '@' preceded only
      by plain characters is the one at `|local|`. */
  lemma FirstAtIsUnique(local: string, domain: string, k: int)
    requires '@' !in local
    requires 0 <= k < |local + "@" + domain| && (local + "@" + domain)[k] == '@'
    requires AllPlain((local + "@" + domain)[..k])
    ensures k == |local|
  {
    if k > |local| {
      PlainAt(local + "@" + domain, k, |local|);
      assert false;
    }
  }

  lemma PlainAt(s: string, k: int, i: int)
    requires 0 <= i < k <= |s| && AllPlain(s[..k])
    ensures IsPlain(s[i])
  {
    assert s[i] == s[..k][i];
  }

  /** Without an '@' the expression never matches. */
  lemma NoAtRejected(s: string)
    requires '@' !in s
    ensures !RegexTest(s)
  {
    RunAccepts(Start, s);
  }

  /** A matching string holds exactly one '@' and no whitespace. */
  lemma AcceptedShape(s: string)
    requires RegexTest(s)
    ensures multiset(s)['@'] == 1
    ensures forall i :: 0 <= i < |s| ==> !IsWhitespace(s[i])
  {
    var k := AtOfAccepted(s);
    var left, right := s[..k], s[k + 1..];
    PlainHasNoAt(left);
    PlainHasNoAt(right);
    assert s == left + [s[k]] + right;
    assert multiset(s) == multiset(left) + multiset{'@'} + multiset(right);
    forall i | 0 <= i < |s| ensures !IsWhitespace(s[i]) {
      if i < k { assert s[i] == left[i]; }
      else if i > k { assert s[i] == right[i - k - 1]; }
    }
  }

  /** The '@' of a matching string, with plain text on both sides. */
  lemma AtOfAccepted(s: string) returns (k: int)
    requires RegexTest(s)
    ensures 0 < k < |s| && s[k] == '@' && AllPlain(s[..k]) && AllPlain(s[k + 1..])
  {
    RunAccepts(Start, s);
    k :| 0 < k < |s| && s[k] == '@' && AllPlain(s[..k]) && IsDomain(s[k + 1..]);
  }

  lemma PlainHasNoAt(t: string)
    requires AllPlain(t)
    ensures multiset(t)['@'] == 0
  {
    assert '@' !in t;
  }

  /** `toLowerCase` on the characters that have a one-to-one lower-case form
      in ASCII; every other character is kept. */
  function LowerChar(c: char): char {
    if 'A' <= c <= 'Z' then (c as int + 32) as char else c
  }

  function ToLower(s: string): string {
    seq(|s|, i requires 0 <= i < |s| => LowerChar(s[i]))
  }

  /** Lower-casing keeps every character in its class (whitespace, '@', '.',
      other), so the automaton cannot tell a string from its lower-cased form. */
  lemma {:induction false} RunIgnoresCase(q: State, s: string)
    ensures Run(q, ToLower(s)) == Run(q, s)
    decreases |s|
  {
    if s != [] {
      var l := ToLower(s);
      assert l[0] == LowerChar(s[0]);
      assert l[1..] == ToLower(s[1..]);
      assert Step(q, LowerChar(s[0])) == Step(q, s[0]);
      RunIgnoresCase(Step(q, s[0]), s[1..]);
    }
  }
}
