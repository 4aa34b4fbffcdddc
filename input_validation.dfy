/**
 * Input validation (`InputValidation`): slug, URL, e-mail and password rules.
 *
 * URL parsing (`Uri.TryCreate`) and address parsing (`IPAddress.TryParse`)
 * are collaborators: they arrive as function values.
 *
 * The source's patterns are anchored with `^...$`. In .NET, `$` without
 * RegexOptions.Multiline also matches just before a final '\n', so a string
 * with one trailing newline passes them. `SlugRegexAsWritten` and
 * `EmailRegexAsWritten` keep that behaviour; the predicates the rest of the
 * model uses (`MatchesSlugPattern`, `IsValidSlug`, `IsValidEmail`) match the
 * whole string, as the patterns evidently intend.
 */
module InputValidation {
  import opened Common

  /** A character of the class `[a-zA-Z0-9\-_]`. */
  predicate IsSlugChar(c: char)
  {
    ('a' <= c <= 'z') || ('A' <= c <= 'Z') || ('0' <= c <= '9') || c == '-' || c == '_'
  }

  predicate AllSlugChars(s: string)
  {
    forall i | 0 <= i < |s| :: IsSlugChar(s[i])
  }

  /** `^[a-zA-Z0-9\-_]+$` matched against the whole string. */
  predicate MatchesSlugPattern(s: string)
  {
    |s| >= 1 && AllSlugChars(s)
  }

  /** `^[a-zA-Z0-9\-_]+$` with .NET's `$`, which also matches before a final '\n'. */
  predicate SlugRegexAsWritten(s: string)
  {
    MatchesSlugPattern(s) || (|s| >= 2 && s[|s| - 1] == '\n' && MatchesSlugPattern(s[..|s| - 1]))
  }

  /** The as-written pattern lets "abc\n" through; the whole-string pattern does not. */
  lemma SlugRegexAcceptsTrailingNewline()
    ensures SlugRegexAsWritten("abc\n")
    ensures !MatchesSlugPattern("abc\n")
  {
    assert "abc\n"[..3] == "abc";
    assert !IsSlugChar("abc\n"[3]);
  }

  /** The two readings differ exactly on slugs followed by one newline. */
  lemma SlugRegexDifference(s: string)
    requires SlugRegexAsWritten(s) && !MatchesSlugPattern(s)
    ensures s == s[..|s| - 1] + "\n" && MatchesSlugPattern(s[..|s| - 1])
  {
  }

  /** A string matching the slug pattern holds no white space and no line break. */
  lemma {:induction false} SlugPatternExcludesWhiteSpace(s: string)
    ensures MatchesSlugPattern(s) ==> !IsBlank(s)
    ensures MatchesSlugPattern(s) ==> forall i | 0 <= i < |s| :: !IsWhiteSpaceChar(s[i])
  {
    if MatchesSlugPattern(s) {
      forall i | 0 <= i < |s|
        ensures !IsWhiteSpaceChar(s[i])
      {
        assert IsSlugChar(s[i]);
      }
      assert !IsWhiteSpaceChar(s[0]);
    }
  }

  /** `IsValidSlug`: non-blank and `^[a-zA-Z0-9\-_]{1,50}$`. */
  function IsValidSlug(slug: string): (ok: bool)
    ensures ok <==> 1 <= |slug| <= 50 && AllSlugChars(slug)
  {
    SlugPatternExcludesWhiteSpace(slug);
    !IsBlank(slug) && MatchesSlugPattern(slug) && |slug| <= 50
  }

  /** `IsValidPassword`: non-blank, at least 6 characters, an upper-case letter, a lower-case letter, a digit. */
  predicate HasUpper(s: string) { exists i | 0 <= i < |s| :: 'A' <= s[i] <= 'Z' }
  predicate HasLower(s: string) { exists i | 0 <= i < |s| :: 'a' <= s[i] <= 'z' }
  predicate HasDigit(s: string) { exists i | 0 <= i < |s| :: '0' <= s[i] <= '9' }

  function IsValidPassword(password: string): (ok: bool)
    ensures ok <==> |password| >= 6 && HasUpper(password) && HasLower(password) && HasDigit(password)
  {
    if HasUpper(password) then
      var i :| 0 <= i < |password| && 'A' <= password[i] <= 'Z';
      assert !IsWhiteSpaceChar(password[i]);
      !IsBlank(password) && |password| >= 6 && HasUpper(password) && HasLower(password) && HasDigit(password)
    else
      false
  }

  /** A character of `[^@\s]`. */
  predicate IsEmailChar(c: char)
  {
    c != '@' && !IsWhiteSpaceChar(c)
  }

  predicate AllEmailChars(s: string)
  {
    forall i | 0 <= i < |s| :: IsEmailChar(s[i])
  }

  /** `^[^@\s]+@[^@\s]+\.[^@\s]+$` matched against the whole string, with '@' at `at` and the dot at `dot`. */
  predicate EmailSplitAt(email: string, at: int, dot: int)
  {
    && 0 < at && at + 1 < dot < |email| - 1
    && email[at] == '@' && email[dot] == '.'
    && AllEmailChars(email[..at]) && AllEmailChars(email[at + 1..dot]) && AllEmailChars(email[dot + 1..])
  }

  predicate MatchesEmailPattern(email: string)
  {
    exists at, dot | 0 <= at < |email| && 0 <= dot < |email| :: EmailSplitAt(email, at, dot)
  }

  /** The as-written e-mail pattern, whose `$` also matches before a final '\n'. */
  predicate EmailRegexAsWritten(email: string)
  {
    MatchesEmailPattern(email)
    || (|email| >= 1 && email[|email| - 1] == '\n' && MatchesEmailPattern(email[..|email| - 1]))
  }

  lemma EmailRegexAcceptsTrailingNewline()
    ensures EmailRegexAsWritten("a@b.c\n")
    ensures !MatchesEmailPattern("a@b.c\n")
  {
    var e := "a@b.c\n";
    var f := "a@b.c";
    assert e[..5] == f;
    assert f[..1] == "a" && f[2..3] == "b" && f[4..] == "c";
    assert EmailSplitAt(f, 1, 3);
    forall at, dot | 0 <= at < |e| && 0 <= dot < |e|
      ensures !EmailSplitAt(e, at, dot)
    {
      if 0 < at && at + 1 < dot < |e| - 1 {
        assert e[dot + 1..][|e| - dot - 2] == '\n';
      }
    }
  }

  /** No white space, exactly one '@' with something before it, and a '.' strictly inside the part after it. */
  predicate EmailShape(email: string)
  {
    && (forall i | 0 <= i < |email| :: !IsWhiteSpaceChar(email[i]))
    && exists at | 0 < at < |email| ::
         && email[at] == '@'
         && (forall i | 0 <= i < |email| && email[i] == '@' :: i == at)
         && (exists dot | at + 1 < dot < |email| - 1 :: email[dot] == '.')
  }

  lemma {:induction false} EmailPatternIsShape(email: string)
    ensures MatchesEmailPattern(email) <==> EmailShape(email)
  {
    if MatchesEmailPattern(email) {
      var at, dot :| 0 <= at < |email| && 0 <= dot < |email| && EmailSplitAt(email, at, dot);
      forall i | 0 <= i < |email| && i != at && i != dot
        ensures IsEmailChar(email[i])
      {
        if i < at { assert email[i] == email[..at][i]; }
        else if i < dot { assert email[i] == email[at + 1..dot][i - at - 1]; }
        else { assert email[i] == email[dot + 1..][i - dot - 1]; }
      }
      assert EmailShape(email);
    }
    if EmailShape(email) {
      var at :| 0 < at < |email| && email[at] == '@'
        && (forall i | 0 <= i < |email| && email[i] == '@' :: i == at)
        && (exists dot | at + 1 < dot < |email| - 1 :: email[dot] == '.');
      var dot :| at + 1 < dot < |email| - 1 && email[dot] == '.';
      assert EmailSplitAt(email, at, dot);
    }
  }

  /** `IsValidEmail`: non-blank and the whole string matches `^[^@\s]+@[^@\s]+\.[^@\s]+$`. */
  function IsValidEmail(email: string): (ok: bool)
    ensures ok <==> EmailShape(email)
  {
    EmailPatternIsShape(email);
    if EmailShape(email) then
      var at :| 0 < at < |email| && email[at] == '@';
      assert !IsWhiteSpaceChar(email[at]);
      !IsBlank(email) && MatchesEmailPattern(email)
    else
      false
  }

  /** An address `IPAddress.TryParse` recognised, with the bytes `GetAddressBytes` gives. */
  newtype byte = x: int | 0 <= x < 256

  datatype IpAddress = IPv4(b0: byte, b1: byte, b2: byte, b3: byte) | IPv6(bytes: seq<byte>)

  /** The parsed pieces of an absolute URI. */
  datatype Uri = Uri(scheme: string, host: string)

  /** `IsLocalhost` */
  predicate IsLocalhost(host: string)
  {
    EqualsIgnoreCase(host, "localhost") || host == "127.0.0.1" || host == "::1"
  }

  /** `IPAddress.IsIPv6LinkLocal`: the first 10 bits are 1111111010 (fe80::/10). */
  predicate IsIPv6LinkLocal(bytes: seq<byte>)
  {
    |bytes| >= 2 && bytes[0] == 0xFE && 0x80 <= bytes[1] <= 0xBF
  }

  /** `IsPrivateIpAddress`, given what `IPAddress.TryParse` made of the host. */
  predicate IsPrivateIpAddress(address: Option<IpAddress>)
  {
    match address
    case None => false
    case Some(IPv4(b0, b1, _, _)) =>
      b0 == 10 || (b0 == 172 && b1 >= 16 && b1 <= 31) || (b0 == 192 && b1 == 168)
    case Some(IPv6(bytes)) => IsIPv6LinkLocal(bytes)
  }

  /** The IPv4 address as a 32-bit number. */
  function Ipv4Value(b0: byte, b1: byte, b2: byte, b3: byte): int
  {
    (b0 as int) * 0x100_0000 + (b1 as int) * 0x1_0000 + (b2 as int) * 0x100 + b3 as int
  }

  /** The three private blocks of RFC 1918 section 3, as address intervals. */
  predicate InRfc1918(v: int)
  {
    (0x0A00_0000 <= v < 0x0B00_0000)      // 10.0.0.0/8
    || (0xAC10_0000 <= v < 0xAC20_0000)   // 172.16.0.0/12
    || (0xC0A8_0000 <= v < 0xC0A9_0000)   // 192.168.0.0/16
  }

  /** The byte tests of `IsPrivateIpAddress` are exactly the RFC 1918 blocks. */
  lemma PrivateIpv4IsRfc1918(b0: byte, b1: byte, b2: byte, b3: byte)
    ensures IsPrivateIpAddress(Some(IPv4(b0, b1, b2, b3))) <==> InRfc1918(Ipv4Value(b0, b1, b2, b3))
  {
    var low := (b2 as int) * 0x100 + b3 as int;
    assert 0 <= low < 0x1_0000;
    var v := Ipv4Value(b0, b1, b2, b3);
    assert v == (b0 as int) * 0x100_0000 + (b1 as int) * 0x1_0000 + low;
  }

  /**
   * `IsPrivateIpAddress` as address ranges: an unparsed host is never
   * private, an IPv4 address is private exactly inside the RFC 1918 blocks,
   * and an IPv6 address exactly when its first 16 bits lie in fe80::/10.
   */
  lemma PrivateAddressRule(address: Option<IpAddress>)
    ensures address.None? ==> !IsPrivateIpAddress(address)
    ensures address.Some? && address.value.IPv4? ==>
      var a := address.value;
      IsPrivateIpAddress(address) <==> InRfc1918(Ipv4Value(a.b0, a.b1, a.b2, a.b3))
    ensures address.Some? && address.value.IPv6? ==>
      var bytes := address.value.bytes;
      IsPrivateIpAddress(address) <==> |bytes| >= 2 && 0xFE80 <= (bytes[0] as int) * 0x100 + bytes[1] as int < 0xFEC0
  {
    match address
    case None =>
    case Some(IPv4(b0, b1, b2, b3)) =>
      PrivateIpv4IsRfc1918(b0, b1, b2, b3);
    case Some(IPv6(bytes)) =>
      if |bytes| >= 2 {
        var high := (bytes[0] as int) * 0x100 + bytes[1] as int;
        assert 0 <= bytes[1] as int < 0x100;
        assert bytes[0] == 0xFE ==> (0xFE80 <= high < 0xFEC0 <==> 0x80 <= bytes[1] <= 0xBF);
        assert bytes[0] as int < 0xFE ==> high < 0xFE00;
        assert bytes[0] as int > 0xFE ==> high >= 0xFF00;
      }
  }

  /** The localhost test ignores case as a whole: hosts equal up to case are both local or both not. */
  lemma LocalhostIgnoresCase(a: string, b: string)
    requires EqualsIgnoreCase(a, b)
    ensures IsLocalhost(a) <==> IsLocalhost(b)
  {
    if a == "127.0.0.1" || a == "::1" {
      NoLettersFixedUnderLower(b, a);
    }
    if b == "127.0.0.1" || b == "::1" {
      NoLettersFixedUnderLower(a, b);
    }
  }

  /** A string whose lower-case form has no letters at all is that form already. */
  lemma NoLettersFixedUnderLower(s: string, t: string)
    requires ToLower(s) == ToLower(t)
    requires forall i | 0 <= i < |t| :: !('A' <= t[i] <= 'Z') && !('a' <= t[i] <= 'z')
    ensures s == t
  {
    assert ToLower(t) == t;
    forall i | 0 <= i < |s|
      ensures s[i] == t[i]
    {
      if 'A' <= s[i] <= 'Z' {
        assert false;
      }
    }
  }

  /** `IsValidUrl`: non-blank, parses as an absolute URI, scheme http or https. */
  predicate IsValidUrl(url: string, tryCreate: string -> Option<Uri>)
  {
    !IsBlank(url) && tryCreate(url).Some? && (tryCreate(url).value.scheme == "http" || tryCreate(url).value.scheme == "https")
  }

  /** The host ends, ignoring case, with one of the listed domains (no dot boundary is required). */
  predicate EndsWithListedDomain(host: string, domains: seq<string>)
  {
    exists i | 0 <= i < |domains| :: EndsWithIgnoreCase(host, domains[i])
  }

  /** What `IsSecureUrl` accepts: a valid http(s) URL, not local, not private, and inside the allow-list if one is given. */
  predicate SecureUrlRule(url: string, allowedDomains: Option<seq<string>>, tryCreate: string -> Option<Uri>, tryParseIp: string -> Option<IpAddress>)
  {
    && IsValidUrl(url, tryCreate)
    && var host := tryCreate(url).value.host;
    && !IsLocalhost(host)
    && !IsPrivateIpAddress(tryParseIp(host))
    && (allowedDomains.None? || allowedDomains.value == [] || EndsWithListedDomain(host, allowedDomains.value))
  }

  /** `IsSecureUrl` */
  method IsSecureUrl(url: string, allowedDomains: Option<seq<string>>, tryCreate: string -> Option<Uri>, tryParseIp: string -> Option<IpAddress>)
    returns (ok: bool)
    ensures ok <==> SecureUrlRule(url, allowedDomains, tryCreate, tryParseIp)
  {
    if !IsValidUrl(url, tryCreate) {
      return false;
    }
    var parsed := tryCreate(url);
    if parsed.None? {
      return false;
    }
    var uri := parsed.value;
    if uri.scheme != "http" && uri.scheme != "https" {
      return false;
    }
    if IsLocalhost(uri.host) || IsPrivateIpAddress(tryParseIp(uri.host)) {
      return false;
    }
    if allowedDomains.Some? && |allowedDomains.value| > 0 {
      var domains := allowedDomains.value;
      var isAllowed := false;
      var i := 0;
      while i < |domains|
        invariant 0 <= i <= |domains|
        invariant !isAllowed
        invariant forall j | 0 <= j < i :: !EndsWithIgnoreCase(uri.host, domains[j])
      {
        if EndsWithIgnoreCase(uri.host, domains[i]) {
          isAllowed := true;
          break;
        }
        i := i + 1;
      }
      if !isAllowed {
        return false;
      }
    }
    return true;
  }
}
