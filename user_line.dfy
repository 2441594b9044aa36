/**
 * One user record and the constructor statement rendered for it
 * (the per-record f-string of sol_generation.py, line 8).
 *
 * `ParseLine` reads a statement back. It is the partner of `RenderUser`:
 * rendering followed by parsing gives the record back whenever its
 * `userType` holds no double quote, the one character the unescaped
 * rendering cannot carry.
 */
module UserLine {
  import opened Wrappers
  import opened Decimal

  /** One element of the input JSON array, with its five fields typed. */
  datatype User = User(userType: string, energyBalance: int, price: int, classification: int, radian: int)

  /** Eight spaces of indentation, the call and the opening quote. */
  const LineHead: string := "        users.push(User(\""
  /** Closes the string literal and separates it from the first number. */
  const QuoteSep: string := "\", "
  /** Separates two numeric arguments. */
  const Sep: string := ", "
  /** The two constant arguments, the statement end and the line end. */
  const LineTail: string := ", false, type(uint).max));\n"

  /** The statement for `u`: user type verbatim, then the four numbers in order. */
  function RenderUser(u: User): string {
    LineHead + u.userType + QuoteSep
      + IntToString(u.energyBalance) + Sep
      + IntToString(u.price) + Sep
      + IntToString(u.classification) + Sep
      + IntToString(u.radian) + LineTail
  }

  predicate StartsWith(s: string, prefix: string) {
    |prefix| <= |s| && s[..|prefix|] == prefix
  }

  predicate EndsWith(s: string, suffix: string) {
    |suffix| <= |s| && s[|s| - |suffix|..] == suffix
  }

  /** A record whose user type the rendering keeps recoverable. */
  predicate QuoteFree(u: User) {
    '"' !in u.userType
  }

  /** Consumes `lit` from the front of `s`. */
  function Skip(s: string, lit: string): (r: Option<string>)
    ensures r.Some? <==> StartsWith(s, lit)
    ensures r.Some? ==> r.value == s[|lit|..]
  {
    if StartsWith(s, lit) then Some(s[|lit|..]) else None
  }

  /** Index of the first double quote in `s`, or `|s|` when there is none. */
  function FindQuote(s: string): (n: nat)
    ensures n <= |s|
    ensures '"' !in s[..n]
    ensures n < |s| ==> s[n] == '"'
  {
    if s == [] || s[0] == '"' then 0
    else
      assert s[..1 + FindQuote(s[1..])] == [s[0]] + s[1..][..FindQuote(s[1..])];
      1 + FindQuote(s[1..])
  }

  /** Reads a decimal literal followed by `after` off the front of `s`. */
  function ReadIntThen(s: string, after: string): (r: Option<(int, string)>)
    ensures r.Some? ==> |r.value.1| < |s|
  {
    var (v, t) :- ReadInt(s);
    var rest :- Skip(t, after);
    Some((v, rest))
  }

  /** Reads the four numeric arguments and the constant tail of a statement. */
  function ParseNumbers(s: string): (r: Option<(int, int, int, int, string)>)
    ensures r.Some? ==> |r.value.4| < |s|
  {
    var (e, t1) :- ReadIntThen(s, Sep);
    var (p, t2) :- ReadIntThen(t1, Sep);
    var (c, t3) :- ReadIntThen(t2, Sep);
    var (rad, rest) :- ReadIntThen(t3, LineTail);
    Some((e, p, c, rad, rest))
  }

  /** Reads one statement off the front of `s`; yields the record and what follows. */
  function ParseLine(s: string): (r: Option<(User, string)>)
    ensures r.Some? ==> |r.value.1| < |s|
  {
    var afterHead :- Skip(s, LineHead);
    var q := FindQuote(afterHead);
    var numbers :- Skip(afterHead[q..], QuoteSep);
    var (e, p, c, rad, rest) :- ParseNumbers(numbers);
    Some((User(afterHead[..q], e, p, c, rad), rest))
  }

  lemma SkipConcat(lit: string, t: string)
    ensures Skip(lit + t, lit) == Some(t)
  {
    assert (lit + t)[..|lit|] == lit;
    assert (lit + t)[|lit|..] == t;
  }

  /** The first quote after a quote-free prefix is the one right after it. */
  lemma {:induction false} FindQuoteOfConcat(a: string, t: string)
    requires '"' !in a
    requires |t| > 0 && t[0] == '"'
    ensures FindQuote(a + t) == |a|
  {
    if a != [] {
      assert (a + t)[1..] == a[1..] + t;
      FindQuoteOfConcat(a[1..], t);
    } else {
      assert a + t == t;
    }
  }

  /** Where each piece of a five-piece concatenation lies. */
  lemma PiecesShape(h: string, x: string, q: string, n: string, t: string)
    ensures StartsWith(h + x + q + n + t, h)
    ensures (h + x + q + n + t)[|h|..][..|x|] == x
    ensures (h + x + q + n + t)[|h| + |x|..][..|q|] == q
    ensures EndsWith(h + x + q + n + t, t)
    ensures |h + x + q + n + t| == |h| + |x| + |q| + |n| + |t|
  {
    var s := h + x + q + n + t;
    assert s == h + (x + (q + (n + t)));
    assert s[|h|..] == x + (q + (n + t));
    assert s[|h| + |x|..] == q + (n + t);
  }

  /**
   * The statement always has the fixed shape: it opens with the indented
   * call and the opening quote, carries the user type verbatim right after
   * it and a closing quote right after that, and ends with the constant
   * arguments `false` and `type(uint).max` and a newline, whatever the record.
   */
  lemma LineShape(u: User)
    ensures StartsWith(RenderUser(u), LineHead)
    ensures RenderUser(u)[|LineHead|..][..|u.userType|] == u.userType
    ensures RenderUser(u)[|LineHead| + |u.userType|] == '"'
    ensures EndsWith(RenderUser(u), LineTail)
    ensures |RenderUser(u)| == LineLength(u)
  {
    RenderUserSplit(u);
    PiecesShape(LineHead, u.userType, QuoteSep, Numbers(u), LineTail);
    assert QuoteSep[0] == '"';
  }

  /** Length of a rendered statement, counted field by field. */
  function LineLength(u: User): nat {
    |LineHead| + |u.userType| + |QuoteSep| + 3 * |Sep| + |LineTail|
      + |IntToString(u.energyBalance)| + |IntToString(u.price)|
      + |IntToString(u.classification)| + |IntToString(u.radian)|
  }

  /** The text of the four numbers, as `RenderUser` lays it out. */
  function Numbers(u: User): string {
    IntToString(u.energyBalance) + Sep
      + IntToString(u.price) + Sep
      + IntToString(u.classification) + Sep
      + IntToString(u.radian)
  }

  lemma RenderUserSplit(u: User)
    ensures RenderUser(u) == LineHead + u.userType + QuoteSep + Numbers(u) + LineTail
  {
  }

  lemma ReadIntThenOfIntToString(i: int, after: string, rest: string)
    requires |after| > 0 && !IsDigit(after[0])
    ensures ReadIntThen(IntToString(i) + after + rest, after) == Some((i, rest))
  {
    assert IntToString(i) + after + rest == IntToString(i) + (after + rest);
    ReadIntOfIntToString(i, after + rest);
    SkipConcat(after, rest);
  }

  lemma ParseNumbersText(u: User, rest: string)
    ensures ParseNumbers(Numbers(u) + LineTail + rest) == Some((u.energyBalance, u.price, u.classification, u.radian, rest))
  {
    var t3 := IntToString(u.radian) + LineTail + rest;
    var t2 := IntToString(u.classification) + Sep + t3;
    var t1 := IntToString(u.price) + Sep + t2;
    assert Numbers(u) + LineTail + rest == IntToString(u.energyBalance) + Sep + t1;
    ReadIntThenOfIntToString(u.energyBalance, Sep, t1);
    ReadIntThenOfIntToString(u.price, Sep, t2);
    ReadIntThenOfIntToString(u.classification, Sep, t3);
    ReadIntThenOfIntToString(u.radian, LineTail, rest);
  }

  lemma Reassociate(h: string, x: string, q: string, n: string, t: string, rest: string)
    ensures h + x + q + n + t + rest == h + (x + (q + (n + t + rest)))
  {
  }

  /** A statement is parsed piece by piece: head, user type up to the quote, numbers. */
  lemma ParseLineOfParts(userType: string, numbers: string, e: int, p: int, c: int, rad: int, rest: string)
    requires '"' !in userType
    requires ParseNumbers(numbers) == Some((e, p, c, rad, rest))
    ensures ParseLine(LineHead + (userType + (QuoteSep + numbers))) == Some((User(userType, e, p, c, rad), rest))
  {
    var afterHead := userType + (QuoteSep + numbers);
    SkipConcat(LineHead, afterHead);
    FindQuoteOfConcat(userType, QuoteSep + numbers);
    assert afterHead[..|userType|] == userType;
    assert afterHead[|userType|..] == QuoteSep + numbers;
    SkipConcat(QuoteSep, numbers);
  }

  /**
   * Parsing a rendered statement, whatever text follows it, gives back the
   * record with every field in its place and leaves exactly the following text.
   */
  lemma ParseRenderUser(u: User, rest: string)
    requires QuoteFree(u)
    ensures ParseLine(RenderUser(u) + rest) == Some((u, rest))
  {
    var numbers := Numbers(u) + LineTail + rest;
    RenderUserSplit(u);
    Reassociate(LineHead, u.userType, QuoteSep, Numbers(u), LineTail, rest);
    ParseNumbersText(u, rest);
    ParseLineOfParts(u.userType, numbers, u.energyBalance, u.price, u.classification, u.radian, rest);
  }
}
