/**
 * Address expressions: the dotted strings the resolver accepts.
 *
 * Four anchored patterns are tried in a fixed order and the first one that
 * matches decides what the segments mean:
 *   1. endpoint.instance.service.user.cell   (instance: decimal digits)
 *   2. strategy.service.user.cell
 *   3. instance.service.user.cell            (instance: any [a-z0-9-_]* token)
 *   4. endpoint.strategy.service.user.cell
 * None of the patterns' character classes contains '.', so a pattern matches
 * exactly when the expression splits on '.' into as many segments as the
 * pattern has, each in its class (lemma MatchesIffFits).
 */
module AddressExpression {
  import opened Wrappers
  import opened Numbers

  predicate IsLower(c: char) { 'a' <= c <= 'z' }

  /** The class [a-z0-9-_]. */
  predicate IsTokenChar(c: char) { IsLower(c) || IsDigit(c) || c == '-' || c == '_' }

  /** The class [a-z-_], used for the cell of the endpoint pattern only. */
  predicate IsCellChar(c: char) { IsLower(c) || c == '-' || c == '_' }

  /** The regular expressions the patterns' segments are drawn from. */
  datatype SegmentClass =
    | Name      // [a-z][a-z0-9-_]*
    | CellName  // [a-z][a-z-_]*
    | Number    // \d+
    | Token     // [a-z0-9-_]*

  predicate InClass(k: SegmentClass, s: string) {
    match k
    case Name => |s| > 0 && IsLower(s[0]) && forall i :: 1 <= i < |s| ==> IsTokenChar(s[i])
    case CellName => |s| > 0 && IsLower(s[0]) && forall i :: 1 <= i < |s| ==> IsCellChar(s[i])
    case Number => |s| > 0 && AllDigits(s)
    case Token => forall i :: 0 <= i < |s| ==> IsTokenChar(s[i])
  }

  const ENDPOINT_PATTERN: seq<SegmentClass> := [Name, Number, Name, Name, CellName]
  const STRATEGY_PATTERN: seq<SegmentClass> := [Name, Name, Name, Name]
  const INSTANCE_PATTERN: seq<SegmentClass> := [Token, Name, Name, Name]
  const ENDPOINT_STRATEGY_PATTERN: seq<SegmentClass> := [Name, Name, Name, Name, Name]

  /** The segments written one after the other with '.' between them. */
  function Join(parts: seq<string>): string {
    if |parts| == 0 then ""
    else if |parts| == 1 then parts[0]
    else parts[0] + "." + Join(parts[1..])
  }

  /**
   * What `Pattern.matcher(s).matches()` decides: the whole of `s` is the
   * patterns' segments joined by literal dots.
   */
  ghost predicate Matches(pattern: seq<SegmentClass>, s: string) {
    exists parts :: Join(parts) == s && Fits(pattern, parts)
  }

  predicate Fits(pattern: seq<SegmentClass>, parts: seq<string>) {
    |parts| == |pattern| && forall i :: 0 <= i < |parts| ==> InClass(pattern[i], parts[i])
  }

  /** The maximal dot-free pieces of `s`, in order; "" gives [""]. */
  function Split(s: string): (parts: seq<string>)
    ensures |parts| > 0
  {
    if s == [] then [""]
    else
      var rest := Split(s[1..]);
      if s[0] == '.' then [""] + rest else [[s[0]] + rest[0]] + rest[1..]
  }

  /** The parsed form of an expression, as the source's `Parameters` holds it. */
  datatype Parameters = Parameters(
    endpointName: string,  // "" when the shape names no endpoint
    instance: int,         // -1 when the shape names no instance
    strategy: string,      // "" when the shape names no strategy
    service: string,
    user: string,
    cell: string,
    expression: string)

  datatype ParseError =
    | InvalidExpression(expression: string)  // no pattern matched
    | NumberFormat(segment: string)          // Integer.parseInt refused the instance

  /** The `Parameters` constructor: the first matching pattern wins. */
  function Parse(expression: string): (r: Result<Parameters, ParseError>)
    ensures r.Success? ==> r.value.expression == expression
  {
    ParseSegments(Split(expression), expression)
  }

  /** The four `trySet...Pattern` calls, in order, on the dot-separated segments. */
  function ParseSegments(parts: seq<string>, expression: string): Result<Parameters, ParseError> {
    if Fits(ENDPOINT_PATTERN, parts) then
      match ParseInt(parts[1])
      case None => Failure(NumberFormat(parts[1]))
      case Some(n) => Success(Parameters(parts[0], n, "", parts[2], parts[3], parts[4], expression))
    else if Fits(STRATEGY_PATTERN, parts) then
      Success(Parameters("", -1, parts[0], parts[1], parts[2], parts[3], expression))
    else if Fits(INSTANCE_PATTERN, parts) then
      match ParseInt(parts[0])
      case None => Failure(NumberFormat(parts[0]))
      case Some(n) => Success(Parameters("", n, "", parts[1], parts[2], parts[3], expression))
    else if Fits(ENDPOINT_STRATEGY_PATTERN, parts) then
      Success(Parameters(parts[0], -1, parts[1], parts[2], parts[3], parts[4], expression))
    else
      Failure(InvalidExpression(expression))
  }

  // ---------------------------------------------------------------------------
  // Splitting and joining

  predicate NoDot(s: string) {
    forall i :: 0 <= i < |s| ==> s[i] != '.'
  }

  lemma InClassIsTokens(k: SegmentClass, s: string)
    requires InClass(k, s)
    ensures Tokens(s)
  {
  }

  lemma {:induction false} SplitDotFree(a: string, t: string)
    requires NoDot(a)
    ensures Split(a + t) == [a + Split(t)[0]] + Split(t)[1..]
    decreases |a|
  {
    if a != [] {
      assert (a + t)[1..] == a[1..] + t;
      SplitDotFree(a[1..], t);
      assert [a[0]] + (a[1..] + Split(t)[0]) == a + Split(t)[0];
    } else {
      assert a + t == t;
      assert a + Split(t)[0] == Split(t)[0];
      assert [Split(t)[0]] + Split(t)[1..] == Split(t);
    }
  }

  /** Splitting the join of dot-free segments gives the segments back. */
  lemma {:induction false} SplitJoin(parts: seq<string>)
    requires |parts| > 0
    requires forall i :: 0 <= i < |parts| ==> NoDot(parts[i])
    ensures Split(Join(parts)) == parts
  {
    if |parts| == 1 {
      SplitDotFree(parts[0], "");
      assert parts[0] + "" == parts[0];
    } else {
      var tail := Join(parts[1..]);
      SplitJoin(parts[1..]);
      assert ("." + tail)[1..] == tail;
      assert Split("." + tail) == [""] + parts[1..];
      assert Join(parts) == parts[0] + ("." + tail);
      SplitDotFree(parts[0], "." + tail);
      assert parts[0] + "" == parts[0];
    }
  }

  /** Joining the pieces of a split gives the string back. */
  lemma {:induction false} JoinSplit(s: string)
    ensures Join(Split(s)) == s
    decreases |s|
  {
    if s != [] {
      var rest := Split(s[1..]);
      JoinSplit(s[1..]);
      if s[0] == '.' {
        assert Split(s) == [""] + rest;
        assert ([""] + rest)[1..] == rest;
        assert Join(Split(s)) == "" + "." + Join(rest);
      } else if |rest| == 1 {
        assert Join(Split(s)) == [s[0]] + rest[0];
      } else {
        var head := [[s[0]] + rest[0]] + rest[1..];
        assert head[1..] == rest[1..];
        assert Join(head) == ([s[0]] + rest[0]) + "." + Join(rest[1..]);
        assert Join(rest) == rest[0] + "." + Join(rest[1..]);
      }
    }
  }

  /** Every character of a join is a dot or a character of some segment. */
  lemma {:induction false} JoinTokens(parts: seq<string>)
    requires forall j, i :: 0 <= j < |parts| && 0 <= i < |parts[j]| ==> IsTokenChar(parts[j][i])
    ensures forall k :: 0 <= k < |Join(parts)| ==> IsTokenChar(Join(parts)[k]) || Join(parts)[k] == '.'
  {
    if |parts| > 1 {
      JoinTokens(parts[1..]);
      var tail := Join(parts[1..]);
      forall k | 0 <= k < |Join(parts)|
        ensures IsTokenChar(Join(parts)[k]) || Join(parts)[k] == '.'
      {
        if k < |parts[0]| {
          assert Join(parts)[k] == parts[0][k];
        } else if k > |parts[0]| {
          assert Join(parts)[k] == tail[k - |parts[0]| - 1];
        }
      }
    }
  }

  /**
   * The regular expression matches exactly when the split fits: the
   * reformulation the parser relies on.
   */
  lemma MatchesIffFits(pattern: seq<SegmentClass>, s: string)
    requires |pattern| > 0
    ensures Matches(pattern, s) <==> Fits(pattern, Split(s))
  {
    if Matches(pattern, s) {
      var parts :| Join(parts) == s && Fits(pattern, parts);
      forall i | 0 <= i < |parts| ensures Tokens(parts[i]) {
        InClassIsTokens(pattern[i], parts[i]);
      }
      SplitTokens(parts);
    }
    if Fits(pattern, Split(s)) {
      JoinSplit(s);
    }
  }

  // ---------------------------------------------------------------------------
  // What each shape parses to, and which shape wins

  /**
   * A five-segment expression whose second segment is all digits has the
   * endpoint shape, the first pattern tried: the endpoint and the instance are
   * taken from it and the strategy is "". Integer.parseInt refuses only an
   * instance beyond 32 bits, never one of nine digits or fewer.
   */
  lemma ParseEndpointShape(e: string, i: string, s: string, u: string, c: string)
    requires InClass(Name, e) && InClass(Number, i) && InClass(Name, s) && InClass(Name, u)
    requires InClass(CellName, c)
    ensures var x := Join([e, i, s, u, c]);
      && (ParseInt(i).Some? ==> Parse(x) == Success(Parameters(e, DigitsValue(i), "", s, u, c, x)))
      && (ParseInt(i).None? ==> Parse(x) == Failure(NumberFormat(i)))
      && (|i| <= 9 ==> ParseInt(i).Some?)
  {
    var parts := [e, i, s, u, c];
    var x := Join(parts);
    SplitFive(parts, ENDPOINT_PATTERN);
    assert Parse(x) == ParseSegments(parts, x);
    if |i| <= 9 {
      ShortNumberParses(i);
    }
  }

  lemma ShortNumberParses(i: string)
    requires InClass(Number, i) && |i| <= 9
    ensures ParseInt(i) == Some(DigitsValue(i))
  {
    DigitsBound(i);
    assert !(i[0] == '-' || i[0] == '+');
  }

  /**
   * A four-segment expression whose first segment starts with a letter has the
   * strategy shape: no endpoint, instance -1. It is tried before the instance
   * shape, which would also match it.
   */
  lemma ParseStrategyShape(st: string, s: string, u: string, c: string)
    requires InClass(Name, st) && InClass(Name, s) && InClass(Name, u) && InClass(Name, c)
    ensures var x := Join([st, s, u, c]);
      Parse(x) == Success(Parameters("", -1, st, s, u, c, x))
  {
    SplitFour([st, s, u, c], STRATEGY_PATTERN);
  }

  /**
   * A four-segment expression whose first segment is a token that does not
   * start with a letter falls to the instance shape: the instance is
   * Integer.parseInt of that segment, so "", "-" or "0a" are refused while
   * "-3" or "007" are read as numbers.
   */
  lemma ParseInstanceShape(t: string, s: string, u: string, c: string)
    requires InClass(Token, t) && !(|t| > 0 && IsLower(t[0]))
    requires InClass(Name, s) && InClass(Name, u) && InClass(Name, c)
    ensures var x := Join([t, s, u, c]);
      && (ParseInt(t).Some? ==> Parse(x) == Success(Parameters("", ParseInt(t).value, "", s, u, c, x)))
      && (ParseInt(t).None? ==> Parse(x) == Failure(NumberFormat(t)))
  {
    var parts := [t, s, u, c];
    var x := Join(parts);
    SplitFour(parts, INSTANCE_PATTERN);
    assert Parse(x) == ParseSegments(parts, x);
    assert !InClass(STRATEGY_PATTERN[0], parts[0]);
  }

  /**
   * A five-segment expression whose second segment starts with a letter has
   * the endpoint-and-strategy shape: instance -1.
   */
  lemma ParseEndpointStrategyShape(e: string, st: string, s: string, u: string, c: string)
    requires InClass(Name, e) && InClass(Name, st) && InClass(Name, s) && InClass(Name, u)
    requires InClass(Name, c)
    ensures var x := Join([e, st, s, u, c]);
      Parse(x) == Success(Parameters(e, -1, st, s, u, c, x))
  {
    var parts := [e, st, s, u, c];
    var x := Join(parts);
    SplitFive(parts, ENDPOINT_STRATEGY_PATTERN);
    assert Parse(x) == ParseSegments(parts, x);
    assert !InClass(ENDPOINT_PATTERN[1], parts[1]) by {
      assert !IsDigit(st[0]);
    }
  }

  /**
   * Only the endpoint shape restricts its cell to [a-z][a-z-_]*: an
   * endpoint-shaped expression whose cell holds a digit matches no pattern.
   */
  lemma CellWithDigitRejected(e: string, i: string, s: string, u: string, c: string, k: nat)
    requires InClass(Name, e) && InClass(Number, i) && InClass(Name, s) && InClass(Name, u)
    requires InClass(Name, c) && k < |c| && IsDigit(c[k])
    ensures var x := Join([e, i, s, u, c]); Parse(x) == Failure(InvalidExpression(x))
  {
    var parts := [e, i, s, u, c];
    forall j | 0 <= j < |parts| ensures Tokens(parts[j]) {
      InClassIsTokens(if j == 1 then Number else Name, parts[j]);
    }
    SplitTokens(parts);
    assert !InClass(ENDPOINT_PATTERN[4], parts[4]) by {
      assert !IsCellChar(c[k]);
    }
    assert !InClass(ENDPOINT_STRATEGY_PATTERN[1], parts[1]) by {
      assert !IsLower(i[0]);
    }
  }

  /**
   * The parser reports an invalid expression exactly when none of the four
   * regular expressions matches; when one does, the only possible failure is
   * Integer.parseInt refusing the instance.
   */
  lemma InvalidIffNoPatternMatches(x: string)
    ensures Parse(x) == Failure(InvalidExpression(x)) <==>
      !(Matches(ENDPOINT_PATTERN, x) || Matches(STRATEGY_PATTERN, x) ||
        Matches(INSTANCE_PATTERN, x) || Matches(ENDPOINT_STRATEGY_PATTERN, x))
    ensures Parse(x).Failure? && !Parse(x).error.InvalidExpression? ==>
      Matches(ENDPOINT_PATTERN, x) || Matches(INSTANCE_PATTERN, x)
  {
    MatchesIffFits(ENDPOINT_PATTERN, x);
    MatchesIffFits(STRATEGY_PATTERN, x);
    MatchesIffFits(INSTANCE_PATTERN, x);
    MatchesIffFits(ENDPOINT_STRATEGY_PATTERN, x);
  }

  /**
   * An accepted expression is written in lower-case letters, digits, '-', '_'
   * and '.'.
   */
  lemma AcceptedAlphabet(x: string)
    requires Parse(x).Success?
    ensures forall k :: 0 <= k < |x| ==> IsTokenChar(x[k]) || x[k] == '.'
  {
    var parts := Split(x);
    var pattern :=
      if Fits(ENDPOINT_PATTERN, parts) then ENDPOINT_PATTERN
      else if Fits(STRATEGY_PATTERN, parts) then STRATEGY_PATTERN
      else if Fits(INSTANCE_PATTERN, parts) then INSTANCE_PATTERN
      else ENDPOINT_STRATEGY_PATTERN;
    assert Fits(pattern, parts);
    forall j, i | 0 <= j < |parts| && 0 <= i < |parts[j]| ensures IsTokenChar(parts[j][i]) {
      InClassIsTokens(pattern[j], parts[j]);
    }
    JoinTokens(parts);
    JoinSplit(x);
  }

  /** No pattern admits an upper-case letter anywhere. */
  lemma UppercaseRejected(x: string, k: nat)
    requires k < |x| && 'A' <= x[k] <= 'Z'
    ensures Parse(x) == Failure(InvalidExpression(x))
  {
    if Parse(x).Success? {
      AcceptedAlphabet(x);
    }
    var parts := Split(x);
    JoinSplit(x);
    if Fits(ENDPOINT_PATTERN, parts) || Fits(INSTANCE_PATTERN, parts) {
      var pattern := if Fits(ENDPOINT_PATTERN, parts) then ENDPOINT_PATTERN else INSTANCE_PATTERN;
      forall j, i | 0 <= j < |parts| && 0 <= i < |parts[j]| ensures IsTokenChar(parts[j][i]) {
        InClassIsTokens(pattern[j], parts[j]);
      }
      JoinTokens(parts);
    }
  }

  /** "http.0.myservice.myuser.mycell": endpoint http of instance 0. */
  lemma EndpointExample()
    ensures var x := Join(["http", "0", "myservice", "myuser", "mycell"]);
      Parse(x) == Success(Parameters("http", 0, "", "myservice", "myuser", "mycell", x))
  {
    ParseEndpointShape("http", "0", "myservice", "myuser", "mycell");
    ShortNumberParses("0");
    assert DigitsValue("0") == 0;
  }

  /** "any.myservice.myuser.mycell": strategy any, no instance. */
  lemma StrategyExample()
    ensures var x := Join(["any", "myservice", "myuser", "mycell"]);
      Parse(x) == Success(Parameters("", -1, "any", "myservice", "myuser", "mycell", x))
  {
    ParseStrategyShape("any", "myservice", "myuser", "mycell");
  }

  /** "0.myservice.myuser.mycell": instance 0, every endpoint. */
  lemma InstanceExample()
    ensures var x := Join(["0", "myservice", "myuser", "mycell"]);
      Parse(x) == Success(Parameters("", 0, "", "myservice", "myuser", "mycell", x))
  {
    ShortNumberParses("0");
    assert DigitsValue("0") == 0;
    ParseInstanceShape("0", "myservice", "myuser", "mycell");
  }

  /** "http.any.myservice.myuser.mycell": endpoint http through strategy any. */
  lemma EndpointStrategyExample()
    ensures var x := Join(["http", "any", "myservice", "myuser", "mycell"]);
      Parse(x) == Success(Parameters("http", -1, "any", "myservice", "myuser", "mycell", x))
  {
    ParseEndpointStrategyShape("http", "any", "myservice", "myuser", "mycell");
  }

  lemma UppercaseExample()
    ensures Parse("Http.0.svc.user.cell").Failure?
  {
    UppercaseRejected("Http.0.svc.user.cell", 0);
  }

  // ---------------------------------------------------------------------------
  // Helpers

  predicate Tokens(s: string) {
    forall i :: 0 <= i < |s| ==> IsTokenChar(s[i])
  }

  /** Token segments are what splitting their join yields. */
  lemma SplitTokens(parts: seq<string>)
    requires |parts| > 0 && forall j :: 0 <= j < |parts| ==> Tokens(parts[j])
    ensures Split(Join(parts)) == parts
  {
    forall j | 0 <= j < |parts| ensures NoDot(parts[j]) {
      assert Tokens(parts[j]);
    }
    SplitJoin(parts);
  }

  lemma SplitFive(parts: seq<string>, pattern: seq<SegmentClass>)
    requires |parts| == 5 == |pattern|
    requires InClass(pattern[0], parts[0]) && InClass(pattern[1], parts[1]) && InClass(pattern[2], parts[2])
    requires InClass(pattern[3], parts[3]) && InClass(pattern[4], parts[4])
    ensures Fits(pattern, parts) && Split(Join(parts)) == parts
  {
    forall j | 0 <= j < 5 ensures InClass(pattern[j], parts[j]) && Tokens(parts[j]) {
      assert j == 0 || j == 1 || j == 2 || j == 3 || j == 4;
      InClassIsTokens(pattern[j], parts[j]);
    }
    SplitTokens(parts);
  }

  lemma SplitFour(parts: seq<string>, pattern: seq<SegmentClass>)
    requires |parts| == 4 == |pattern|
    requires InClass(pattern[0], parts[0]) && InClass(pattern[1], parts[1]) && InClass(pattern[2], parts[2])
    requires InClass(pattern[3], parts[3])
    ensures Fits(pattern, parts) && Split(Join(parts)) == parts
  {
    forall j | 0 <= j < 4 ensures InClass(pattern[j], parts[j]) && Tokens(parts[j]) {
      assert j == 0 || j == 1 || j == 2 || j == 3;
      InClassIsTokens(pattern[j], parts[j]);
    }
    SplitTokens(parts);
  }

  /** Nine digits or fewer always fit in 32 bits. */
  lemma DigitsBound(s: string)
    requires AllDigits(s) && |s| <= 9
    ensures DigitsValue(s) < 1_000_000_000
  {
    DigitsBelowPow10(s);
    Pow10Monotone(|s|, 9);
    assert Pow10(9) == 1_000_000_000;
  }

  function Pow10(n: nat): nat {
    if n == 0 then 1 else 10 * Pow10(n - 1)
  }

  lemma {:induction false} DigitsBelowPow10(s: string)
    requires AllDigits(s)
    ensures DigitsValue(s) < Pow10(|s|)
  {
    if s != [] {
      DigitsBelowPow10(s[..|s| - 1]);
    }
  }

  lemma {:induction false} Pow10Monotone(a: nat, b: nat)
    requires a <= b
    ensures Pow10(a) <= Pow10(b)
  {
    if a < b {
      Pow10Monotone(a, b - 1);
    }
  }
}
