/** Derivation paths of hierarchical deterministic wallets: parsing what users write, and the canonical form
    that is printed (BIP-32 notation; BIP-44, section "Path levels"). */
module DerivationPaths {
  const HARDENED: nat := 0x8000_0000
  const MAX_UINT32: nat := 0xFFFF_FFFF

  type uint32 = x: int | 0 <= x <= MAX_UINT32

  type Components = seq<uint32>

  const DEFAULT_ROOT: Components := [HARDENED + 44, HARDENED + 60, HARDENED, 0]

  datatype Error = EmptyPath | Ambiguous | InvalidComponent | OutOfRange

  datatype Result<T> = Ok(value: T) | Err(error: Error)

  // ---------- strings ----------

  /** White space, as Unicode has it. */
  predicate IsSpace(c: char) {
    var u := c as int;
    9 <= u <= 13 || u == 0x20 || u == 0x85 || u == 0xA0 || u == 0x1680 || 0x2000 <= u <= 0x200A
    || u == 0x2028 || u == 0x2029 || u == 0x202F || u == 0x205F || u == 0x3000
  }

  function TrimLeft(s: string): string {
    if s != "" && IsSpace(s[0]) then TrimLeft(s[1..]) else s
  }

  function TrimRight(s: string): string {
    if s != "" && IsSpace(s[|s| - 1]) then TrimRight(s[..|s| - 1]) else s
  }

  function Trim(s: string): string {
    TrimRight(TrimLeft(s))
  }

  /** The index of the last slash, or -1. */
  function LastSlash(s: string): (i: int)
    ensures -1 <= i < |s| && (i >= 0 ==> s[i] == '/') && forall k | i < k < |s| :: s[k] != '/'
  {
    if s == "" then -1 else if s[|s| - 1] == '/' then |s| - 1 else LastSlash(s[..|s| - 1])
  }

  function Split(s: string): (r: seq<string>)
    ensures |r| > 0
  {
    var i := LastSlash(s);
    if i < 0 then [s] else Split(s[..i]) + [s[i + 1..]]
  }

  function Join(cs: seq<string>): string
    requires |cs| > 0
  {
    if |cs| == 1 then cs[0] else Join(cs[..|cs| - 1]) + "/" + cs[|cs| - 1]
  }

  /** Splitting loses nothing, and no part has a slash left. */
  lemma {:induction false} SplitParts(s: string)
    ensures Join(Split(s)) == s && forall i | 0 <= i < |Split(s)| :: '/' !in Split(s)[i]
  {
    var i := LastSlash(s);
    if i >= 0 {
      SplitParts(s[..i]);
      var front := Split(s[..i]);
      assert Split(s)[..|front|] == front;
      assert s == s[..i] + "/" + s[i + 1..];
    }
  }

  lemma SplitLast(a: string, c: string)
    requires '/' !in c
    ensures Split(a + "/" + c) == Split(a) + [c]
  {
    var s := a + "/" + c;
    assert s[|a|] == '/';
    assert LastSlash(s) == |a| by {
      assert forall k | |a| < k < |s| :: s[k] in c;
    }
    assert s[..|a|] == a && s[|a| + 1..] == c;
  }

  // ---------- integers ----------

  function DigitOf(c: char): nat {
    if '0' <= c <= '9' then c as int - '0' as int
    else if 'a' <= c <= 'z' then c as int - 'a' as int + 10
    else if 'A' <= c <= 'Z' then c as int - 'A' as int + 10
    else 36
  }

  /** The value of digits in a base; -1 if one is not a digit of the base. */
  function Digits(s: string, base: nat): (r: int)
    ensures r >= -1
  {
    if s == "" then 0
    else
      var front := Digits(s[..|s| - 1], base);
      var d := DigitOf(s[|s| - 1]);
      if front < 0 || d >= base then -1 else front * base + d
  }

  function Unsigned(s: string): (r: int)
    ensures r >= -1
  {
    if |s| >= 2 && s[0] == '0' && (s[1] == 'x' || s[1] == 'X') then (if |s| == 2 then -1 else Digits(s[2..], 16))
    else if |s| >= 2 && s[0] == '0' && (s[1] == 'b' || s[1] == 'B') then (if |s| == 2 then -1 else Digits(s[2..], 2))
    else if |s| >= 1 && s[0] == '0' then Digits(s, 8)
    else if s == "" then -1
    else Digits(s, 10)
  }

  /** An integer with an optional sign, whose prefix tells the base. */
  function ParseInt(s: string): Result<int> {
    var signed := s != "" && (s[0] == '+' || s[0] == '-');
    var n := Unsigned(if signed then s[1..] else s);
    if n < 0 then Err(InvalidComponent) else Ok(if signed && s[0] == '-' then -n else n)
  }

  function Decimal(n: nat): string {
    if n < 10 then [('0' as int + n) as char] else Decimal(n / 10) + [('0' as int + n % 10) as char]
  }

  predicate IsDecimal(s: string) {
    forall i | 0 <= i < |s| :: '0' <= s[i] <= '9'
  }

  lemma {:induction false} DecimalDigits(n: nat)
    ensures |Decimal(n)| > 0 && IsDecimal(Decimal(n)) && Digits(Decimal(n), 10) == n
    ensures Decimal(n)[0] == '0' ==> n == 0 && Decimal(n) == "0"
  {
    var s := Decimal(n);
    if n >= 10 {
      DecimalDigits(n / 10);
      assert s[..|s| - 1] == Decimal(n / 10);
      assert s[0] == Decimal(n / 10)[0];
    } else {
      assert s[..0] == "";
    }
  }

  /** Decimal digits without superfluous zeros parse to what they say. */
  lemma ParseDecimal(n: nat)
    ensures ParseInt(Decimal(n)) == Ok(n)
  {
    DecimalDigits(n);
    var s := Decimal(n);
    assert s[0] != '+' && s[0] != '-';
    if s[0] == '0' {
      assert s[..0] == "";
      assert Digits(s, 8) == 0;
    }
  }

  // ---------- components ----------

  function ParseComponent(component: string): Result<uint32> {
    var c := Trim(component);
    var hardened := c != "" && c[|c| - 1] == '\'';
    var digits := if hardened then Trim(c[..|c| - 1]) else c;
    var base := if hardened then HARDENED else 0;
    match ParseInt(digits)
    case Err(e) => Err(e)
    case Ok(n) => if n < 0 || n > MAX_UINT32 - base then Err(OutOfRange) else Ok(base + n)
  }

  function PrintComponent(v: uint32): string {
    if v >= HARDENED then Decimal(v - HARDENED) + "'" else Decimal(v)
  }

  lemma TrimNothing(s: string)
    requires s != "" && !IsSpace(s[0]) && !IsSpace(s[|s| - 1])
    ensures Trim(s) == s
  {}

  /** What is printed for a component is read back as that component, on both sides of the hardened boundary. */
  lemma ComponentRoundTrip(v: uint32)
    ensures ParseComponent(PrintComponent(v)) == Ok(v) && '/' !in PrintComponent(v)
  {
    hide ParseInt, Decimal, Trim;
    var n := if v >= HARDENED then v - HARDENED else v;
    DecimalDigits(n);
    ParseDecimal(n);
    var d, s := Decimal(n), PrintComponent(v);
    TrimNothing(d);
    TrimNothing(s);
    if v >= HARDENED {
      assert s[..|s| - 1] == d;
    }
  }

  // ---------- paths ----------

  function ParseComponents(cs: seq<string>): Result<Components> {
    if cs == [] then Ok([])
    else
      match ParseComponents(cs[..|cs| - 1])
      case Err(e) => Err(e)
      case Ok(front) =>
        match ParseComponent(cs[|cs| - 1])
        case Err(e) => Err(e)
        case Ok(v) => Ok(front + [v])
  }

  /** A path string: absolute if it starts with `m`, else relative to the default root. */
  function Parse(path: string): Result<Components> {
    var cs := Split(path);
    var first := Trim(cs[0]);
    if first == "" then Err(Ambiguous)
    else
      var absolute := first == "m";
      var rest := if absolute then cs[1..] else cs;
      if rest == [] then Err(EmptyPath)
      else
        match ParseComponents(rest)
        case Err(e) => Err(e)
        case Ok(vs) => Ok(if absolute then vs else DEFAULT_ROOT + vs)
  }

  function Print(path: Components): string {
    if path == [] then "m" else Print(path[..|path| - 1]) + "/" + PrintComponent(path[|path| - 1])
  }

  lemma SplitPrefix()
    ensures Split("m") == ["m"]
  {}

  lemma {:induction false} PrintSplits(path: Components)
    ensures var cs := Split(Print(path)); |cs| == |path| + 1 && cs[0] == "m" && ParseComponents(cs[1..]) == Ok(path)
  {
    hide ParseComponent, Split, LastSlash, PrintComponent;
    if path != [] {
      var front, v := path[..|path| - 1], path[|path| - 1];
      PrintSplits(front);
      ComponentRoundTrip(v);
      SplitLast(Print(front), PrintComponent(v));
      var cs, ds := Split(Print(path)), Split(Print(front));
      assert cs == ds + [PrintComponent(v)];
      assert cs[1..][..|path| - 1] == ds[1..];
      assert front + [v] == path;
    } else {
      SplitPrefix();
    }
  }

  /** Parsing what was printed gives the path back, exactly unless the path is empty. */
  lemma RoundTrip(path: Components)
    ensures Parse(Print(path)) == Ok(path) <==> path != []
    ensures path == [] ==> Parse(Print(path)) == Err(EmptyPath)
  {
    PrintSplits(path);
    TrimNothing("m");
  }

  lemma {:induction false} ParsedSize(cs: seq<string>)
    requires ParseComponents(cs).Ok?
    ensures |ParseComponents(cs).value| == |cs|
  {
    if cs != [] {
      ParsedSize(cs[..|cs| - 1]);
    }
  }

  /** Printing what was parsed is a canonical form: it parses to the same path and is printed as itself. */
  lemma Canonical(s: string)
    requires Parse(s).Ok?
    ensures var path := Parse(s).value;
              path != [] && Parse(Print(path)) == Ok(path) && Print(Parse(Print(path)).value) == Print(path)
  {
    var cs := Split(s);
    var rest := if Trim(cs[0]) == "m" then cs[1..] else cs;
    ParsedSize(rest);
    RoundTrip(Parse(s).value);
  }

  // ---------- the methods ----------

  method ParseDerivationPath(path: string) returns (r: Result<Components>)
    ensures r == Parse(path)
  {
    hide ParseComponents, Trim, Split;
    var result: Components := [];
    var components := Split(path);
    SplitSome(path);
    if Trim(components[0]) == "" {
      return Err(Ambiguous);
    } else if Trim(components[0]) == "m" {
      components := components[1..];
    } else {
      result := DEFAULT_ROOT;
    }
    if components == [] {
      return Err(EmptyPath);
    }
    r := AppendComponents(result, components);
  }

  lemma SplitSome(s: string)
    ensures |Split(s)| > 0
  {}

  /** Appends the components one by one. */
  method AppendComponents(root: Components, components: seq<string>) returns (r: Result<Components>)
    ensures r == match ParseComponents(components)
                 case Err(e) => Err(e)
                 case Ok(vs) => Ok(if root == [] then vs else root + vs)
  {
    hide ParseComponent;
    var result := root;
    var i := 0;
    while i < |components|
      invariant 0 <= i <= |components| && ParseComponents(components[..i]).Ok?
      invariant result == root + ParseComponents(components[..i]).value
    {
      assert components[..i + 1][..i] == components[..i];
      var v := ParseComponent(components[i]);
      if v.Err? {
        FailsEarly(components, i);
        return Err(v.error);
      }
      result := result + [v.value];
      i := i + 1;
    }
    assert components[..|components|] == components;
    assert root == [] ==> result == ParseComponents(components).value;
    return Ok(result);
  }

  /** The first component that fails decides. */
  lemma {:induction false} FailsEarly(cs: seq<string>, i: nat)
    requires i < |cs| && ParseComponents(cs[..i]).Ok? && ParseComponent(cs[i]).Err?
    ensures ParseComponents(cs) == Err(ParseComponent(cs[i]).error)
    decreases |cs|
  {
    hide ParseComponent;
    var n := |cs| - 1;
    if i < n {
      assert cs[..n][..i] == cs[..i];
      FailsEarly(cs[..n], i);
    }
  }

  method ToString(path: Components) returns (s: string)
    ensures s == Print(path)
  {
    s := "m";
    var i := 0;
    while i < |path|
      invariant 0 <= i <= |path| && s == Print(path[..i])
    {
      assert path[..i + 1][..i] == path[..i];
      var component: nat := path[i];
      var hardened := false;
      if component >= HARDENED {
        component := component - HARDENED;
        hardened := true;
      }
      s := s + "/" + Decimal(component);
      if hardened {
        s := s + "'";
      }
      i := i + 1;
    }
    assert path[..|path|] == path;
  }
}
