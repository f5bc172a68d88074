/**
 * The input validators and the bearer-token gate of `utils.py`.
 *
 * Both validators are pure string tests.  Each is given twice: once as the
 * decision the code computes, and once as the meaning of the regular
 * expression (or of the list of rules in the docstring); lemmas connect the two.
 */
module Utils {
  import opened Wrappers
  import opened Json
  import opened PyStr

  /** The Python exceptions the validators can raise. */
  datatype PyError = ValueError | TypeError

  // ---------------------------------------------------------------------------
  // validate_email_format:  ^[a-zA-Z0-9._%+-]+@[a-zA-Z0-9.-]+\.[a-zA-Z]{2,}$
  // ---------------------------------------------------------------------------

  predicate IsLocalChar(c: char)
  {
    IsAsciiLetter(c) || IsAsciiDigit(c) || c == '.' || c == '_' || c == '%' || c == '+' || c == '-'
  }

  predicate IsDomainChar(c: char)
  {
    IsAsciiLetter(c) || IsAsciiDigit(c) || c == '.' || c == '-'
  }

  /** `[a-zA-Z0-9._%+-]+` */
  predicate LocalPart(s: string)
  {
    |s| >= 1 && forall k :: 0 <= k < |s| ==> IsLocalChar(s[k])
  }

  /** `[a-zA-Z0-9.-]+` */
  predicate DomainPart(s: string)
  {
    |s| >= 1 && forall k :: 0 <= k < |s| ==> IsDomainChar(s[k])
  }

  /** `[a-zA-Z]{2,}` */
  predicate TopLevelPart(s: string)
  {
    |s| >= 2 && forall k :: 0 <= k < |s| ==> IsAsciiLetter(s[k])
  }

  /** The pattern's three parts, with the '@' at index `at` and the '.' at index `dot`. */
  predicate EmailSplit(s: string, at: int, dot: int)
  {
    0 <= at < dot < |s| && s[at] == '@' && s[dot] == '.' &&
    LocalPart(s[..at]) && DomainPart(s[at + 1..dot]) && TopLevelPart(s[dot + 1..])
  }

  /** What the pattern between `^` and `$` describes: some way to cut `s` into the three parts. */
  ghost predicate PatternBody(s: string)
  {
    exists at, dot :: EmailSplit(s, at, dot)
  }

  /**
   * `re.match(pattern, s) is not None`: `$` matches at the very end of the
   * string or just before a newline that ends it.
   */
  ghost predicate PatternMatches(s: string)
  {
    PatternBody(s) || (|s| >= 1 && s[|s| - 1] == '\n' && PatternBody(s[..|s| - 1]))
  }

  /** The only cut that can work: at the first '@' and at the last '.'. */
  predicate CutAtFirstAtLastDot(s: string)
  {
    EmailSplit(s, Find(s, '@'), RFind(s, '.'))
  }

  predicate EmailAccepted(s: string)
  {
    CutAtFirstAtLastDot(s) || (|s| >= 1 && s[|s| - 1] == '\n' && CutAtFirstAtLastDot(s[..|s| - 1]))
  }

  /** A cut that satisfies the pattern is the cut at the first '@' and the last '.'. */
  lemma PatternCutIsUnique(s: string, at: int, dot: int)
    requires EmailSplit(s, at, dot)
    ensures Find(s, '@') == at && RFind(s, '.') == dot
  {
    var f := Find(s, '@');
    assert f >= 0 && f <= at;
    if f < at {
      assert false;
    }
    var d := RFind(s, '.');
    assert d >= dot;
    if d > dot {
      assert false;
    }
  }

  /** The computed test decides exactly the pattern. */
  lemma CutDecidesPattern(s: string)
    ensures CutAtFirstAtLastDot(s) <==> PatternBody(s)
  {
    if PatternBody(s) {
      var at, dot :| EmailSplit(s, at, dot);
      PatternCutIsUnique(s, at, dot);
    }
  }

  lemma AcceptedIsPattern(s: string)
    ensures EmailAccepted(s) <==> PatternMatches(s)
  {
    CutDecidesPattern(s);
    if |s| >= 1 {
      CutDecidesPattern(s[..|s| - 1]);
    }
  }

  /** `validate_email_format(email)` */
  function ValidateEmailFormat(email: Value): (r: Result<bool, PyError>)
    ensures r.Failure? <==> !email.Str?
    ensures r.Failure? ==> r.error == ValueError
    ensures email.Str? ==> (r == Success(true) <==> PatternMatches(email.s))
  {
    match email
    case Str(s) =>
      AcceptedIsPattern(s);
      Success(EmailAccepted(s))
    case _ => Failure(ValueError)
  }

  /** The text of a successful cut holds its '@' once. */
  lemma CutHasOneAt(s: string, at: int, dot: int)
    requires EmailSplit(s, at, dot)
    ensures Count(s, '@') == 1
  {
    forall k | 0 <= k < at ensures s[..at][k] != '@' {
      assert IsLocalChar(s[..at][k]);
    }
    CountAbsent(s[..at], '@');
    var after := s[at + 1..];
    forall k | 0 <= k < |after| ensures after[k] != '@' {
      var j := at + 1 + k;
      assert after[k] == s[j];
      if j < dot {
        assert s[j] == s[at + 1..dot][k];
        assert IsDomainChar(s[at + 1..dot][k]);
      } else if j > dot {
        assert s[j] == s[dot + 1..][j - dot - 1];
        assert IsAsciiLetter(s[dot + 1..][j - dot - 1]);
      }
    }
    CountAbsent(after, '@');
    assert s[at..][1..] == after;
    assert s[..at] + s[at..] == s;
    CountAppend(s[..at], s[at..], '@');
  }

  /** An address the pattern accepts contains exactly one '@'. */
  lemma AcceptedEmailHasOneAt(s: string)
    requires PatternMatches(s)
    ensures Count(s, '@') == 1
  {
    if PatternBody(s) {
      var at, dot :| EmailSplit(s, at, dot);
      CutHasOneAt(s, at, dot);
    } else {
      var body := s[..|s| - 1];
      var at, dot :| EmailSplit(body, at, dot);
      CutHasOneAt(body, at, dot);
      assert s == body + "\n";
      CountAppend(body, "\n", '@');
    }
  }

  /** Python's `$` lets one trailing newline through. */
  lemma TrailingNewlineAccepted(s: string)
    requires PatternBody(s)
    ensures ValidateEmailFormat(Str(s + "\n")) == Success(true)
  {
    assert (s + "\n")[..|s|] == s;
  }

  // ---------------------------------------------------------------------------
  // validate_password_strength
  // ---------------------------------------------------------------------------

  /** `[!@#$%^&*(),.?":{}|<>]` */
  predicate IsSpecial(c: char)
  {
    c == '!' || c == '@' || c == '#' || c == '$' || c == '%' || c == '^' || c == '&' ||
    c == '*' || c == '(' || c == ')' || c == ',' || c == '.' || c == '?' || c == '"' ||
    c == ':' || c == '{' || c == '}' || c == '|' || c == '<' || c == '>'
  }

  /** The four character classes the lookaheads ask for. */
  datatype CharClass = Uppercase | Lowercase | Digit | Special

  predicate InClass(c: char, k: CharClass)
  {
    match k
    case Uppercase => IsAsciiUpper(c)
    case Lowercase => IsAsciiLower(c)
    case Digit => IsAsciiDigit(c)
    case Special => IsSpecial(c)
  }

  predicate HasClass(t: string, k: CharClass)
  {
    exists i :: 0 <= i < |t| && InClass(t[i], k)
  }

  predicate HasEveryClass(t: string)
  {
    HasClass(t, Uppercase) && HasClass(t, Lowercase) && HasClass(t, Digit) && HasClass(t, Special)
  }

  predicate ContainsSpace(s: string)
  {
    exists i :: 0 <= i < |s| && IsSpace(s[i])
  }

  /** Where `.*` started at `p` must stop: the next newline, or the end. */
  function LineEnd(s: string, p: nat): (e: nat)
    requires p <= |s|
    ensures p <= e <= |s|
    ensures e < |s| ==> s[e] == '\n'
    ensures forall k :: p <= k < e ==> s[k] != '\n'
    decreases |s| - p
  {
    if p == |s| || s[p] == '\n' then p else LineEnd(s, p + 1)
  }

  /** The four lookaheads succeed when tried at position `q`. */
  predicate LookaheadsAt(s: string, q: nat)
    requires q <= |s|
  {
    HasEveryClass(s[q..LineEnd(s, q)])
  }

  /**
   * `re.search` of the four lookaheads, trying start positions `p`, `p + 1`,
   * ..., `|s|`: it succeeds iff, from some start, the rest of that line
   * holds a character of every class.
   */
  function LookaheadsFrom(s: string, p: nat): (found: bool)
    requires p <= |s|
    ensures found <==> exists q :: p <= q <= |s| && LookaheadsAt(s, q)
    decreases |s| - p
  {
    LookaheadsAt(s, p) || (p < |s| && LookaheadsFrom(s, p + 1))
  }

  /** `validate_password_strength(password)`; `len` of a non-string raises TypeError. */
  function ValidatePasswordStrength(password: Value): (r: Result<bool, PyError>)
    ensures r.Failure? <==> !password.Str?
    ensures r.Failure? ==> r.error == TypeError
    ensures password.Str? && |password.s| < 8 ==> r == Success(false)
    ensures password.Str? && ContainsSpace(password.s) ==> r == Success(false)
  {
    match password
    case Str(s) =>
      if |s| < 8 then Success(false)
      else if !LookaheadsFrom(s, 0) then Success(false)
      else if ContainsSpace(s) then Success(false)
      else Success(true)
    case _ => Failure(TypeError)
  }

  /** The password rules as the docstring lists them. */
  predicate StrongPassword(s: string)
  {
    |s| >= 8 && HasEveryClass(s) && !ContainsSpace(s)
  }

  lemma HasClassOfSuffix(s: string, q: nat, k: CharClass)
    requires q <= |s| && HasClass(s[q..], k)
    ensures HasClass(s, k)
  {
    var i :| 0 <= i < |s[q..]| && InClass(s[q..][i], k);
    assert s[q + i] == s[q..][i];
  }

  /**
   * The rules of the docstring, exactly: at least 8 characters, every class
   * present, and no whitespace anywhere.
   */
  lemma PasswordStrengthIff(s: string)
    ensures ValidatePasswordStrength(Str(s)) == Success(true) <==> StrongPassword(s)
  {
    if |s| >= 8 && !ContainsSpace(s) {
      assert forall k :: 0 <= k < |s| ==> s[k] != '\n' by {
        forall k | 0 <= k < |s| ensures s[k] != '\n' {
          if s[k] == '\n' { assert IsSpace(s[k]); }
        }
      }
      if HasEveryClass(s) {
        assert LineEnd(s, 0) == |s|;
        assert s[0..|s|] == s;
        assert LookaheadsAt(s, 0);
      }
      if LookaheadsFrom(s, 0) {
        var q :| 0 <= q <= |s| && LookaheadsAt(s, q);
        assert LineEnd(s, q) == |s|;
        HasClassOfSuffix(s, q, Uppercase);
        HasClassOfSuffix(s, q, Lowercase);
        HasClassOfSuffix(s, q, Digit);
        HasClassOfSuffix(s, q, Special);
      }
    }
  }

  /** Worked example: a strong password. */
  lemma StrongPasswordExample()
    ensures ValidatePasswordStrength(Str("Passw0rd!")) == Success(true)
  {
    var good := "Passw0rd!";
    assert InClass(good[0], Uppercase) && InClass(good[1], Lowercase);
    assert InClass(good[5], Digit) && InClass(good[8], Special);
    assert HasEveryClass(good);
    assert !ContainsSpace(good) by {
      forall i | 0 <= i < |good| ensures !IsSpace(good[i]) {
        assert '!' <= good[i] <= 'z';
      }
    }
    PasswordStrengthIff(good);
  }

  /** Worked examples: a password without the other classes, and one with a space. */
  lemma WeakPasswordExamples()
    ensures ValidatePasswordStrength(Str("password")) == Success(false)
    ensures ValidatePasswordStrength(Str("Pass 0rd!")) == Success(false)
  {
    var weak := "password";
    assert !HasClass(weak, Uppercase) by {
      forall i | 0 <= i < |weak| ensures !IsAsciiUpper(weak[i]) {
        assert 'a' <= weak[i] <= 'z';
      }
    }
    PasswordStrengthIff(weak);
    var spaced := "Pass 0rd!";
    assert IsSpace(spaced[4]);
  }

  /** Worked examples the pattern accepts, one of them through the trailing-newline rule. */
  lemma EmailAcceptedExamples()
    ensures ValidateEmailFormat(Str("a@b.com")) == Success(true)
    ensures ValidateEmailFormat(Str("a@b.com\n")) == Success(true)
  {
    var s := "a@b.com";
    assert s[..1] == "a" && s[2..3] == "b" && s[4..] == "com";
    assert LocalPart(s[..1]) && DomainPart(s[2..3]) && TopLevelPart(s[4..]);
    assert EmailSplit(s, 1, 3);
    assert PatternMatches(s);
    TrailingNewlineAccepted(s);
    assert s + "\n" == "a@b.com\n";
  }

  /** Worked examples refused: a one-letter top-level part, and a non-string. */
  lemma EmailRefusedExamples()
    ensures ValidateEmailFormat(Str("a@b.c")) == Success(false)
    ensures ValidateEmailFormat(Int(7)) == Failure(ValueError)
  {
    var short := "a@b.c";
    assert !TopLevelPart(short[4..]);
    assert !CutAtFirstAtLastDot(short);
    assert short[4] != '\n';
  }

  // ---------------------------------------------------------------------------
  // auth_required
  // ---------------------------------------------------------------------------

  /** The decoded token the identity provider hands back. */
  datatype Claims = Claims(uid: string)

  /** Why the gate turned a request away; both answer 401. */
  datatype AuthFailure = MissingOrInvalidHeader | InvalidOrExpiredToken

  /** What a gated endpoint does: refuse with a status, or run the handler with the claims. */
  datatype Gated<+R> = Refused(status: int, failure: AuthFailure) | Ran(claims: Claims, result: R)

  const BearerPrefix: string := "Bearer "

  /** `auth_header.split(' ')[1]` */
  function BearerToken(header: string): (t: string)
    requires StartsWith(header, BearerPrefix)
    ensures ' ' !in t
  {
    assert header[..|BearerPrefix|][6] == ' ';
    SplitFirstField(header, ' ');
    Split(header, ' ')[1]
  }

  /**
   * The token is the text after "Bearer " up to the next space: a second
   * space, and everything after it, is ignored.
   */
  lemma BearerTokenIsFirstWord(header: string)
    requires StartsWith(header, BearerPrefix)
    ensures var t := BearerToken(header);
            ' ' !in t && StartsWith(header, BearerPrefix + t) &&
            (|header| == 7 + |t| || header[7 + |t|] == ' ')
  {
    var rest := header[7..];
    assert header[..7] == BearerPrefix;
    assert Find(header, ' ') == 6 by {
      assert header[6] == ' ';
      assert forall k :: 0 <= k < 6 ==> header[k] != ' ' by {
        forall k | 0 <= k < 6 ensures header[k] != ' ' {
          assert header[k] == BearerPrefix[k];
        }
      }
    }
    SplitFirstField(header, ' ');
    SplitFirstField(rest, ' ');
    var t := BearerToken(header);
    assert t == Split(rest, ' ')[0];
    assert header == BearerPrefix + rest;
    if Find(rest, ' ') < 0 {
      assert t == rest;
    } else {
      assert t == rest[..Find(rest, ' ')];
      assert header[..7 + |t|] == BearerPrefix + t;
    }
  }

  /**
   * `auth_required(auth_client)(f)` applied to a request whose
   * Authorization header is `header` (None when absent); `verify` is
   * `auth_client.verify_id_token`, None standing for any exception it raises.
   */
  function Guard<R>(header: Option<string>, verify: string -> Option<Claims>, handler: Claims -> R): (g: Gated<R>)
    ensures g.Refused? ==> g.status == 401
    ensures g == Refused(401, MissingOrInvalidHeader) <==>
              !(header.Some? && StartsWith(header.value, BearerPrefix))
    ensures g == Refused(401, InvalidOrExpiredToken) <==>
              header.Some? && StartsWith(header.value, BearerPrefix) &&
              verify(BearerToken(header.value)).None?
    ensures g.Ran? ==> header.Some? && StartsWith(header.value, BearerPrefix) &&
                       verify(BearerToken(header.value)) == Some(g.claims) &&
                       g.result == handler(g.claims)
  {
    var authHeader := if header.Some? then header.value else "";
    if !StartsWith(authHeader, BearerPrefix) then Refused(401, MissingOrInvalidHeader)
    else
      match verify(BearerToken(authHeader))
      case None => Refused(401, InvalidOrExpiredToken)
      case Some(user) => Ran(user, handler(user))
  }
}
