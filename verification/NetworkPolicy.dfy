/** Network policy entries and their resolution (crates/core/src/network_policy.rs). */
module NetworkPolicy {
  import opened Wrappers
  import opened Text

  datatype EntryShape = Cidr(text: string) | Host(name: string)

  predicate IsDigit(c: char) {
    '0' <= c <= '9'
  }

  predicate AllDigits(s: string) {
    forall c <- s :: IsDigit(c)
  }

  function DigitsValue(s: string): nat
    requires AllDigits(s)
  {
    if s == "" then 0 else assert s[|s| - 1] in s; 10 * DigitsValue(s[..|s| - 1]) + (s[|s| - 1] as int - '0' as int)
  }

  /** An unsigned parse: an optional plus sign, then at least one digit, leading zeros allowed, below `limit`. */
  function ParseUnsigned(s: string, limit: nat): Option<nat> {
    var digits := if s != "" && s[0] == '+' then s[1..] else s;
    if digits == "" || !AllDigits(digits) || DigitsValue(digits) >= limit then None else Some(DigitsValue(digits))
  }

  predicate IsOctet(s: string) {
    var n := ParseUnsigned(s, 0x10000);
    n.Some? && n.value <= 255
  }

  /** The text before the first slash, and the text after it if there is one. */
  function SplitSlash(s: string): (string, Option<string>) {
    var k := Find(s, "/");
    if k.None? then (s, None) else (s[..k.value], Some(s[k.value + 1..]))
  }

  predicate IsQuad(ip: string) {
    var octets := Split(ip, '.');
    |octets| == 4 && forall o <- octets :: IsOctet(o)
  }

  function ParsePrefix(prefix: Option<string>): Option<nat> {
    if prefix.None? then Some(32) else
    var n := ParseUnsigned(prefix.value, 0x100);
    if n.Some? && n.value <= 32 then n else None
  }

  /** The address is kept as written; the prefix is rewritten in decimal. */
  function ParseCidrOrIp(s: string): Option<EntryShape> {
    var (ip, prefixPart) := SplitSlash(s);
    var prefix := ParsePrefix(prefixPart);
    if IsQuad(ip) && prefix.Some? then Some(Cidr(ip + "/" + Decimal(prefix.value))) else None
  }

  predicate LabelChar(c: char) {
    IsDigit(c) || 'a' <= c <= 'z' || 'A' <= c <= 'Z' || c == '-'
  }

  predicate IsLabel(l: string) {
    0 < |l| <= 63 && l[0] != '-' && l[|l| - 1] != '-' && forall c <- l :: LabelChar(c)
  }

  /** The length is in bytes; a name that passes the label test is ASCII, one byte per character. */
  predicate IsHostname(s: string) {
    && |s| <= 253 && '.' in s
    && (exists c <- s :: !IsDigit(c) && c != '.')
    && forall l <- Split(s, '.') :: IsLabel(l)
  }

  function Lowered(s: string): string {
    seq(|s|, i requires 0 <= i < |s| => Lower(s[i]))
  }

  function Validate(entry: string): Option<EntryShape> {
    var s := Trim(entry, WhiteSpace);
    if s == "" then None else
    var cidr := ParseCidrOrIp(s);
    if cidr.Some? then cidr else if IsHostname(s) then Some(Host(Lowered(s))) else None
  }

  // ----- Every emitted shape validates to itself -----

  lemma {:induction false} DecimalValue(n: nat)
    ensures AllDigits(Decimal(n)) && DigitsValue(Decimal(n)) == n && Decimal(n) != ""
  {
    var s := Decimal(n);
    if n < 10 {
      assert s[..|s| - 1] == "";
      DigitIs(n);
    } else {
      DecimalValue(n / 10);
      assert s[..|s| - 1] == Decimal(n / 10) && s[|s| - 1] == Digit(n % 10);
      DigitIs(n % 10);
    }
  }

  lemma DigitIs(d: nat)
    requires d < 10
    ensures IsDigit(Digit(d)) && Digit(d) as int == '0' as int + d
  {
  }

  lemma DecimalParses(n: nat, limit: nat)
    requires n < limit
    ensures ParseUnsigned(Decimal(n), limit) == Some(n)
  {
    DecimalValue(n);
    assert IsDigit(Decimal(n)[0]);
  }

  predicate AddressChar(c: char) {
    IsDigit(c) || c == '+' || c == '.'
  }

  lemma OctetChars(o: string)
    requires IsOctet(o)
    ensures (forall c <- o :: IsDigit(c) || c == '+') && exists c <- o :: IsDigit(c)
  {
    var digits := if o != "" && o[0] == '+' then o[1..] else o;
    assert digits[0] in digits && digits[0] in o;
    assert o != "" && o[0] == '+' ==> o == ['+'] + o[1..];
  }

  lemma QuadIsAddress(ip: string)
    requires IsQuad(ip)
    ensures ip != "" && forall c <- ip :: AddressChar(c)
  {
    hide IsOctet;
    var octets := Split(ip, '.');
    forall k | 0 <= k < |ip| ensures AddressChar(ip[k]) {
      if ip[k] != '.' {
        var i := CharInPart(ip, '.', k);
        OctetChars(octets[i]);
      }
    }
  }

  lemma CidrIsFixed(ip: string, prefix: nat)
    requires IsQuad(ip) && prefix <= 32
    ensures Validate(ip + "/" + Decimal(prefix)) == Some(Cidr(ip + "/" + Decimal(prefix)))
  {
    hide IsQuad, ParseUnsigned, Decimal, IsHostname, AddressChar;
    var s := ip + "/" + Decimal(prefix);
    QuadIsAddress(ip);
    AddressHasNoSlash(ip);
    DecimalValue(prefix);
    SlashSplits(ip, Decimal(prefix));
    DecimalParses(prefix, 0x100);
    NothingToTrim(s, ip, prefix);
  }

  lemma AddressHasNoSlash(ip: string)
    requires forall c <- ip :: AddressChar(c)
    ensures '/' !in ip
  {
  }

  lemma SlashSplits(ip: string, prefix: string)
    requires '/' !in ip
    ensures SplitSlash(ip + "/" + prefix) == (ip, Some(prefix))
  {
    var s := ip + "/" + prefix;
    assert s[|ip|..] == "/" + prefix && s[|ip| + 1..] == prefix && s[..|ip|] == ip;
    forall i | 0 <= i < |ip| ensures !("/" <= s[i..]) {
      assert s[i..][0] == ip[i];
    }
    FindAt(s, "/", |ip|);
  }

  lemma NothingToTrim(s: string, ip: string, prefix: nat)
    requires s == ip + "/" + Decimal(prefix) && ip != "" && forall c <- ip :: AddressChar(c)
    ensures Trim(s, WhiteSpace) == s
  {
    DecimalValue(prefix);
    assert s[0] == ip[0] && AddressChar(s[0]);
    assert s[|s| - 1] == Decimal(prefix)[|Decimal(prefix)| - 1] && IsDigit(s[|s| - 1]);
  }

  lemma LoweredCons(c: char, s: string)
    ensures Lowered([c] + s) == [Lower(c)] + Lowered(s)
  {
  }

  lemma {:induction false} LoweredSplits(s: string)
    ensures |Split(Lowered(s), '.')| == |Split(s, '.')|
    ensures forall i | 0 <= i < |Split(s, '.')| :: Split(Lowered(s), '.')[i] == Lowered(Split(s, '.')[i])
  {
    hide Lowered, Lower;
    if s == "" {
      LoweredNothing();
    } else {
      LoweredSplits(s[1..]);
      var t, rest := Lowered(s), Split(s[1..], '.');
      LoweredCons(s[0], s[1..]);
      assert s == [s[0]] + s[1..] && t[1..] == Lowered(s[1..]) && t[0] == Lower(s[0]);
      LowerDot(s[0]);
      LoweredCons(s[0], rest[0]);
      LoweredNothing();
    }
  }

  lemma LoweredNothing()
    ensures Lowered("") == ""
  {
  }

  lemma LowerDot(c: char)
    ensures Lower(c) == '.' <==> c == '.'
  {
  }

  lemma LoweredLabel(l: string)
    requires IsLabel(l)
    ensures IsLabel(Lowered(l))
  {
    assert forall i | 0 <= i < |l| :: LabelChar(l[i]);
  }

  lemma LoweredHostname(s: string)
    requires IsHostname(s)
    ensures IsHostname(Lowered(s)) && Lowered(Lowered(s)) == Lowered(s)
  {
    hide IsLabel;
    LoweredSplits(s);
    var t, labels := Lowered(s), Split(s, '.');
    forall l | l in Split(t, '.') ensures IsLabel(l) {
      var i :| 0 <= i < |labels| && Split(t, '.')[i] == l;
      assert labels[i] in labels;
      LoweredLabel(labels[i]);
    }
    var i :| 0 <= i < |s| && s[i] == '.';
    assert t[i] == '.';
    var j :| 0 <= j < |s| && !IsDigit(s[j]) && s[j] != '.';
    assert !IsDigit(t[j]) && t[j] != '.' && t[j] in t;
  }

  lemma HostnameChars(s: string)
    ensures IsHostname(s) ==> forall c <- s :: LabelChar(c) || c == '.'
  {
    forall k | 0 <= k < |s| && IsHostname(s) ensures LabelChar(s[k]) || s[k] == '.' {
      if s[k] != '.' {
        var i := CharInPart(s, '.', k);
        assert IsLabel(Split(s, '.')[i]);
      }
    }
  }

  lemma QuadIsNoHostname(s: string)
    requires IsQuad(s)
    ensures !IsHostname(s)
  {
    hide IsQuad, IsLabel;
    QuadIsAddress(s);
    HostnameChars(s);
    assert (forall c <- s :: LabelChar(c) || c == '.') ==> forall c <- s :: IsDigit(c) || c == '.';
  }

  /** No hostname is an address, so the order of the two tests does not matter. */
  lemma HostnameIsNoAddress(s: string)
    requires IsHostname(s)
    ensures ParseCidrOrIp(s).None?
  {
    hide IsQuad, IsHostname, Decimal, ParsePrefix;
    HostnameChars(s);
    NoSlashNoSplit(s);
    if IsQuad(s) {
      QuadIsNoHostname(s);
    }
  }

  lemma NoSlashNoSplit(s: string)
    requires forall c <- s :: LabelChar(c) || c == '.'
    ensures SplitSlash(s) == (s, None)
  {
    forall k | 0 <= k <= |s| ensures !("/" <= s[k..]) {
      assert k < |s| ==> s[k] in s && s[k..][0] == s[k];
    }
  }

  lemma HostnameIsTrimmed(s: string)
    requires IsHostname(s)
    ensures Trim(s, WhiteSpace) == s && s != ""
  {
    HostnameChars(s);
    assert s[0] in s && s[|s| - 1] in s;
  }

  /** Whatever shape an entry validates to, that shape's own text validates to it again. */
  lemma EmittedIsFixed(entry: string)
    requires Validate(entry).Some?
    ensures match Validate(entry).value
            case Cidr(text) => Validate(text) == Some(Cidr(text))
            case Host(name) => Validate(name) == Some(Host(name))
  {
    hide IsQuad, IsHostname, Decimal, ParsePrefix;
    var s := Trim(entry, WhiteSpace);
    if ParseCidrOrIp(s).Some? {
      var (ip, prefix) := SplitSlash(s);
      PrefixBound(prefix);
      CidrIsFixed(ip, ParsePrefix(prefix).value);
    } else {
      LoweredHostname(s);
      HostnameIsNoAddress(Lowered(s));
      HostnameIsTrimmed(Lowered(s));
    }
  }

  lemma AddressAlone(ip: string)
    requires ip != "" && forall c <- ip :: AddressChar(c)
    ensures SplitSlash(ip) == (ip, None) && Trim(ip, WhiteSpace) == ip
  {
    assert ip[0] in ip && ip[|ip| - 1] in ip;
    forall k | 0 <= k <= |ip| ensures !("/" <= ip[k..]) {
      assert k < |ip| ==> ip[k] in ip && ip[k..][0] == ip[k];
    }
  }

  /** An address without a prefix is that one host. */
  lemma BareAddressIsOneHost(ip: string)
    requires IsQuad(ip)
    ensures Validate(ip) == Validate(ip + "/" + "32") == Some(Cidr(ip + "/" + "32"))
  {
    hide IsQuad, IsHostname;
    QuadIsAddress(ip);
    AddressAlone(ip);
    assert Decimal(32) == "32" by {
      assert Decimal(3) == "3";
    }
    CidrIsFixed(ip, 32);
  }

  /** Prefixes run to 32. */
  lemma PrefixIff(ip: string, n: nat)
    requires IsQuad(ip)
    ensures ParseCidrOrIp(ip + "/" + Decimal(n)).Some? <==> n <= 32
  {
    hide IsQuad, Decimal;
    QuadIsAddress(ip);
    AddressHasNoSlash(ip);
    SlashSplits(ip, Decimal(n));
    DecimalUnsigned(n, 0x100);
  }

  lemma DecimalUnsigned(n: nat, limit: nat)
    ensures ParseUnsigned(Decimal(n), limit) == if n < limit then Some(n) else None
  {
    DecimalValue(n);
    assert IsDigit(Decimal(n)[0]);
  }

  lemma QuadSplits(w: string, x: string, y: string, z: string)
    requires '.' !in w && '.' !in x && '.' !in y && '.' !in z
    ensures Split(w + "." + (x + "." + (y + "." + z)), '.') == [w, x, y, z]
  {
    hide Split;
    SplitAtom(z, '.');
    SplitCons(y, z, '.');
    SplitCons(x, y + "." + z, '.');
    SplitCons(w, x + "." + (y + "." + z), '.');
  }

  lemma OctetIff(n: nat)
    ensures IsOctet(Decimal(n)) <==> n <= 255
  {
    DecimalUnsigned(n, 0x10000);
  }

  /** Four numbers are an address exactly when each fits an octet. */
  lemma QuadIff(a: nat, b: nat, c: nat, d: nat)
    ensures IsQuad(Decimal(a) + "." + (Decimal(b) + "." + (Decimal(c) + "." + Decimal(d)))) <==>
            a <= 255 && b <= 255 && c <= 255 && d <= 255
  {
    hide Decimal, IsOctet, Split;
    NoDotInDecimal(a);
    NoDotInDecimal(b);
    NoDotInDecimal(c);
    NoDotInDecimal(d);
    QuadSplits(Decimal(a), Decimal(b), Decimal(c), Decimal(d));
    OctetIff(a);
    OctetIff(b);
    OctetIff(c);
    OctetIff(d);
    var octets := [Decimal(a), Decimal(b), Decimal(c), Decimal(d)];
    assert octets[0] in octets && octets[1] in octets && octets[2] in octets && octets[3] in octets;
  }

  lemma NoDotInDecimal(n: nat)
    ensures '.' !in Decimal(n)
  {
    DecimalIsDigits(n);
  }

  /** A hostname, with any white space around it, is taken in lower case; anything else that is no address is refused. */
  lemma ValidateIs(before: string, s: string, after: string)
    requires (forall c <- before :: WhiteSpace(c)) && (forall c <- after :: WhiteSpace(c))
    requires s != "" && !WhiteSpace(s[0]) && !WhiteSpace(s[|s| - 1])
    ensures Validate(before + s + after) ==
            if IsHostname(s) then Some(Host(Lowered(s))) else ParseCidrOrIp(s)
  {
    hide IsHostname, ParseCidrOrIp;
    TrimPadded(before, s, after, WhiteSpace);
    if IsHostname(s) {
      HostnameIsNoAddress(s);
    }
  }

  /** Two labels make a hostname; one label alone or a leading hyphen does not. */
  lemma LabelsMakeHostname(a: string, b: string)
    requires IsLabel(a) && IsLabel(b) && exists c <- a :: !IsDigit(c)
    ensures IsHostname(a + "." + b) && !IsHostname(a) && !IsHostname("-" + a + "." + b)
  {
    hide IsLabel;
    LabelChars(a);
    LabelChars(b);
    SplitAtom(b, '.');
    SplitCons(a, b, '.');
    SplitCons("-" + a, b, '.');
    var c :| c in a && !IsDigit(c);
    assert c in a + "." + b && c != '.';
    assert (a + "." + b)[|a|] == '.';
    assert ("-" + a)[0] == '-';
    HyphenIsNoLabel(a);
    assert Split("-" + a + "." + b, '.')[0] == "-" + a;
  }

  lemma HyphenIsNoLabel(a: string)
    ensures !IsLabel("-" + a)
  {
  }

  lemma LabelChars(l: string)
    requires IsLabel(l)
    ensures '.' !in l && 0 < |l| <= 63 && forall c <- l :: LabelChar(c)
  {
  }

  lemma PrefixBound(prefix: Option<string>)
    ensures ParsePrefix(prefix).Some? ==> ParsePrefix(prefix).value <= 32
  {
  }

  // ----- Ordering -----

  predicate Less(a: string, b: string) {
    b != "" && (a == "" || a[0] < b[0] || (a[0] == b[0] && Less(a[1..], b[1..])))
  }

  lemma {:induction false} LessTotal(a: string, b: string)
    ensures a == b || Less(a, b) || Less(b, a)
    ensures !(Less(a, b) && Less(b, a)) && !Less(a, a)
  {
    if a != "" {
      LessTotal(a[1..], a[1..]);
      if b != "" {
        LessTotal(a[1..], b[1..]);
        assert a == [a[0]] + a[1..] && b == [b[0]] + b[1..];
      }
    }
  }

  lemma {:induction false} LessTransitive(a: string, b: string, c: string)
    requires Less(a, b) && Less(b, c)
    ensures Less(a, c)
  {
    if a != "" && a[0] == b[0] == c[0] {
      LessTransitive(a[1..], b[1..], c[1..]);
    }
  }

  ghost predicate Sorted(s: seq<string>) {
    forall i, j | 0 <= i < j < |s| :: s[i] == s[j] || Less(s[i], s[j])
  }

  ghost predicate StrictlySorted(s: seq<string>) {
    forall i, j | 0 <= i < j < |s| :: Less(s[i], s[j])
  }

  /** A strictly sorted list is determined by its elements. */
  lemma {:induction false} StrictlySortedIsUnique(a: seq<string>, b: seq<string>)
    requires StrictlySorted(a) && StrictlySorted(b) && forall c :: c in a <==> c in b
    ensures a == b
  {
    hide Less;
    FirstElement(b);
    if a != [] {
      assert a[0] in b && b[0] in a;
      LessTotal(a[0], b[0]);
      LessTotal(a[0], a[0]);
      assert a[0] == b[0];
      TailElements(a);
      TailElements(b);
      StrictlySortedIsUnique(a[1..], b[1..]);
      assert a == [a[0]] + a[1..] && b == [b[0]] + b[1..];
    }
  }

  lemma FirstElement(s: seq<string>)
    ensures s != [] ==> exists c :: c in s
  {
    assert s != [] ==> s[0] in s;
  }

  lemma TailElements(s: seq<string>)
    requires StrictlySorted(s) && s != []
    ensures StrictlySorted(s[1..]) && forall c :: c in s[1..] <==> c in s && c != s[0]
  {
    hide Less;
    forall i | 0 < i < |s| ensures s[i] != s[0] {
      LessTotal(s[0], s[i]);
      assert Less(s[0], s[i]);
    }
    assert s == [s[0]] + s[1..];
  }

  lemma InsertKeepsSorted(s: seq<string>, x: string, k: nat)
    requires Sorted(s) && k <= |s| && (forall i | k <= i < |s| :: Less(x, s[i]))
    requires k > 0 ==> s[k - 1] == x || Less(s[k - 1], x)
    ensures Sorted(s[..k] + [x] + s[k..])
  {
    hide Less;
    var t := s[..k] + [x] + s[k..];
    forall i | 0 <= i < k ensures s[i] == x || Less(s[i], x) {
      if s[i] != s[k - 1] && s[k - 1] != x {
        LessTransitive(s[i], s[k - 1], x);
      }
    }
    assert forall i | 0 <= i < k :: t[i] == s[i];
    assert forall i | k < i < |t| :: t[i] == s[i - 1];
  }

  method Sort(s: seq<string>) returns (t: seq<string>)
    ensures Sorted(t) && multiset(t) == multiset(s)
  {
    hide Less;
    t := [];
    for n := 0 to |s|
      invariant Sorted(t) && multiset(t) == multiset(s[..n])
    {
      var x, k := s[n], |t|;
      while k > 0 && Less(x, t[k - 1])
        invariant 0 <= k <= |t| && forall i | k <= i < |t| :: Less(x, t[i])
      {
        k := k - 1;
      }
      if k > 0 {
        LessTotal(t[k - 1], x);
      }
      InsertKeepsSorted(t, x, k);
      assert t == t[..k] + t[k..] && s[..n + 1] == s[..n] + [x];
      t := t[..k] + [x] + t[k..];
    }
    assert s[..|s|] == s;
  }

  /** Drops each element equal to the one before it. */
  method Dedup(s: seq<string>) returns (t: seq<string>)
    requires Sorted(s)
    ensures StrictlySorted(t) && forall c :: c in t <==> c in s
  {
    hide Less;
    t := [];
    for n := 0 to |s|
      invariant StrictlySorted(t) && (forall c :: c in t <==> c in s[..n])
      invariant if n == 0 then t == [] else t != [] && t[|t| - 1] == s[n - 1]
    {
      assert s[..n + 1] == s[..n] + [s[n]];
      if n == 0 || s[n] != s[n - 1] {
        forall i | 0 <= i < |t| ensures Less(t[i], s[n]) {
          if i < |t| - 1 {
            LessTransitive(t[i], t[|t| - 1], s[n]);
          }
        }
        t := t + [s[n]];
      }
    }
    assert s[..|s|] == s;
  }

  // ----- resolve_entries -----

  type Resolver = string -> Option<seq<string>>

  function Resolution(entry: string, resolver: Resolver): Option<seq<string>> {
    match Validate(entry)
    case None => None
    case Some(Cidr(text)) => Some([text])
    case Some(Host(name)) => resolver(name)
  }

  predicate AllResolve(raw: seq<string>, resolver: Resolver) {
    forall e <- raw :: Resolution(e, resolver).Some?
  }

  predicate FromSome(raw: seq<string>, resolver: Resolver, c: string) {
    exists e <- raw :: Resolution(e, resolver).Some? && c in Resolution(e, resolver).value
  }

  /** `out` lists, strictly sorted, exactly the union of what the entries resolve to. */
  ghost predicate ResolvedTo(raw: seq<string>, resolver: Resolver, out: seq<string>) {
    AllResolve(raw, resolver) && StrictlySorted(out) && forall c :: c in out <==> FromSome(raw, resolver, c)
  }

  method ResolveEntries(raw: seq<string>, resolver: Resolver) returns (r: Option<seq<string>>)
    ensures r.Some? <==> AllResolve(raw, resolver)
    ensures r.Some? ==> ResolvedTo(raw, resolver, r.value)
  {
    hide Validate, Less, Sorted, StrictlySorted;
    var out := [];
    for n := 0 to |raw|
      invariant AllResolve(raw[..n], resolver)
      invariant forall c :: c in out <==> FromSome(raw[..n], resolver, c)
    {
      var e := raw[n];
      assert raw[..n + 1] == raw[..n] + [e];
      ghost var was := out;
      match Validate(e) {
        case None =>
          assert e in raw && Resolution(e, resolver).None?;
          return None;
        case Some(Cidr(text)) => out := out + [text];
        case Some(Host(name)) =>
          var resolved := resolver(name);
          if resolved.None? {
            assert e in raw && Resolution(e, resolver).None?;
            return None;
          }
          out := out + resolved.value;
      }
      assert out == was + Resolution(e, resolver).value;
      UnionGrows(raw[..n], e, resolver);
    }
    assert raw[..|raw|] == raw;
    var sorted := Sort(out);
    assert forall c :: c in sorted <==> c in multiset(sorted);
    assert forall c :: c in out <==> c in multiset(out);
    out := Dedup(sorted);
    return Some(out);
  }

  lemma UnionGrows(raw: seq<string>, e: string, resolver: Resolver)
    requires Resolution(e, resolver).Some?
    ensures forall c :: FromSome(raw + [e], resolver, c) <==> FromSome(raw, resolver, c) || c in Resolution(e, resolver).value
  {
    hide Validate;
    forall c ensures FromSome(raw + [e], resolver, c) <==> FromSome(raw, resolver, c) || c in Resolution(e, resolver).value {
      assert e in raw + [e];
      assert forall x :: x in raw + [e] <==> x in raw || x == e;
    }
  }

  /** Order and repetition of the entries do not matter. */
  lemma ResolutionIsUnique(raw: seq<string>, others: seq<string>, resolver: Resolver, out: seq<string>, out2: seq<string>)
    requires ResolvedTo(raw, resolver, out) && ResolvedTo(others, resolver, out2) && forall e :: e in raw <==> e in others
    ensures out == out2
  {
    hide Resolution, StrictlySorted;
    forall c ensures FromSome(raw, resolver, c) <==> FromSome(others, resolver, c) {
    }
    StrictlySortedIsUnique(out, out2);
  }

  /** The resolver hands out addresses with a prefix, as `validate_entry` writes them. */
  ghost predicate WellFormedResolver(resolver: Resolver) {
    forall name, c :: resolver(name).Some? && c in resolver(name).value ==> Validate(c) == Some(Cidr(c))
  }

  /** A resolved list resolves to itself. */
  lemma ResolutionIsIdempotent(raw: seq<string>, resolver: Resolver, out: seq<string>)
    requires ResolvedTo(raw, resolver, out) && WellFormedResolver(resolver)
    ensures ResolvedTo(out, resolver, out)
  {
    hide Validate, StrictlySorted;
    forall c | c in out ensures Resolution(c, resolver) == Some([c]) {
      var e :| e in raw && Resolution(e, resolver).Some? && c in Resolution(e, resolver).value;
      EmittedIsFixed(e);
    }
    forall c ensures c in out <==> FromSome(out, resolver, c) {
    }
  }
}
