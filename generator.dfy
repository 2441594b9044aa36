/**
 * The generator of sol_generation.py: the loop that accumulates one
 * statement per record (lines 6-9) and the template that places the block
 * inside the constructor of a fixed contract (lines 11-34).
 *
 * Reading users.json and writing SmartGridMappingGenerated.sol are left to
 * the caller: `Generate` takes the parsed records and returns the text that
 * the script writes.
 */
module Generator {
  import opened Wrappers
  import opened UserLine
  import opened Decimal

  /**
   * The template text before the insertion point. The f-string's doubled
   * braces stand for single braces, which is what appears here.
   */
  const Prefix: string :=
    "\n"
    + "// SPDX-License-Identifier: MIT\n"
    + "pragma solidity ^0.8.0;\n"
    + "\n"
    + "contract SmartGridMapping {\n"
    + "    address public owner;\n"
    + "\n"
    + "    struct User {\n"
    + "        string userType;\n"
    + "        int energyBalance;\n"
    + "        uint price;\n"
    + "        uint classification;\n"
    + "        uint radian;\n"
    + "        bool matched;\n"
    + "        uint matchedWith;\n"
    + "    }\n"
    + "\n"
    + "    User[] public users;\n"
    + "\n"
    + "    constructor() {\n"
    + "        owner = msg.sender;\n"

  /** The template text after the insertion point: the ends of the constructor and of the contract. */
  const Suffix: string := "    }\n}\n"

  /** The block of statements: one rendered line per record, in input order. */
  function Entries(users: seq<User>): string {
    if users == [] then "" else RenderUser(users[0]) + Entries(users[1..])
  }

  /** The whole generated file. */
  function Output(users: seq<User>): string {
    Prefix + Entries(users) + Suffix
  }

  /** The accumulation loop: starts from the empty string and appends each record's line. */
  method BuildEntries(users: seq<User>) returns (entries: string)
    ensures entries == Entries(users)
  {
    entries := "";
    for i := 0 to |users|
      invariant entries == Entries(users[..i])
    {
      EntriesStep(users, i);
      entries := entries + RenderUser(users[i]);
    }
    assert users[..|users|] == users;
  }

  /** The script end to end, from the parsed records to the text it writes. */
  method Generate(users: seq<User>) returns (text: string)
    ensures text == Output(users)
  {
    var entries := BuildEntries(users);
    text := Prefix + entries + Suffix;
  }

  /** The block of two record lists back to back is the two blocks back to back. */
  lemma {:induction false} EntriesConcat(a: seq<User>, b: seq<User>)
    ensures Entries(a + b) == Entries(a) + Entries(b)
    decreases |a|
  {
    if a == [] {
      assert a + b == b;
    } else {
      assert (a + b)[1..] == a[1..] + b;
      EntriesConcat(a[1..], b);
    }
  }

  /** Appending one record appends exactly its line to the block. */
  lemma EntriesAppend(users: seq<User>, u: User)
    ensures Entries(users + [u]) == Entries(users) + RenderUser(u)
  {
    EntriesConcat(users, [u]);
    assert Entries([u]) == RenderUser(u) + Entries([]);
  }

  /** One more pass of the loop adds the line of the next record. */
  lemma EntriesStep(users: seq<User>, i: nat)
    requires i < |users|
    ensures Entries(users[..i + 1]) == Entries(users[..i]) + RenderUser(users[i])
  {
    assert users[..i + 1] == users[..i] + [users[i]];
    EntriesAppend(users[..i], users[i]);
  }

  /**
   * Order is kept: the line for `users[i]` sits in the block right after the
   * lines for `users[..i]` and right before those for `users[i + 1..]`.
   */
  lemma EntriesSlot(users: seq<User>, i: nat)
    requires i < |users|
    ensures Entries(users) == Entries(users[..i]) + RenderUser(users[i]) + Entries(users[i + 1..])
    ensures Entries(users)[|Entries(users[..i])|..][..|RenderUser(users[i])|] == RenderUser(users[i])
  {
    assert users == users[..i] + ([users[i]] + users[i + 1..]);
    EntriesConcat(users[..i], [users[i]] + users[i + 1..]);
    EntriesConcat([users[i]], users[i + 1..]);
    assert Entries([users[i]]) == RenderUser(users[i]);
  }

  /** Total length of the lines for `users`, summed from the last record back. */
  function TotalLength(users: seq<User>): nat {
    if users == [] then 0 else TotalLength(users[..|users| - 1]) + LineLength(users[|users| - 1])
  }

  /** The block is no longer and no shorter than the lines that make it up. */
  lemma {:induction false} EntriesLength(users: seq<User>)
    ensures |Entries(users)| == TotalLength(users)
    decreases |users|
  {
    if users != [] {
      var n := |users| - 1;
      assert users == users[..n] + [users[n]];
      EntriesConcat(users[..n], [users[n]]);
      LineShape(users[n]);
      EntriesLength(users[..n]);
    }
  }

  /** Number of occurrences of `c` in `s`. */
  function Count(s: string, c: char): nat {
    if s == [] then 0 else (if s[0] == c then 1 else 0) + Count(s[1..], c)
  }

  lemma {:induction false} CountConcat(a: string, b: string, c: char)
    ensures Count(a + b, c) == Count(a, c) + Count(b, c)
    decreases |a|
  {
    if a == [] {
      assert a + b == b;
    } else {
      assert (a + b)[1..] == a[1..] + b;
      CountConcat(a[1..], b, c);
    }
  }

  lemma {:induction false} CountAbsent(s: string, c: char)
    requires c !in s
    ensures Count(s, c) == 0
    decreases |s|
  {
    if s != [] {
      CountAbsent(s[1..], c);
    }
  }

  /** A character that occurs in `s` is counted at least once. */
  lemma {:induction false} CountPresent(s: string, c: char)
    requires c in s
    ensures Count(s, c) > 0
    decreases |s|
  {
    if s[0] != c {
      assert c in s[1..];
      CountPresent(s[1..], c);
    }
  }

  /** `c` occurs in `s` exactly when it is counted. */
  lemma CountZero(s: string, c: char)
    ensures Count(s, c) == 0 <==> c !in s
  {
    if c in s {
      CountPresent(s, c);
    } else {
      CountAbsent(s, c);
    }
  }

  /**
   * A rendered line holds one newline of its own, its last character, plus
   * every newline of the user type, which is copied without escaping.
   */
  lemma RenderUserNewlines(u: User)
    ensures Count(RenderUser(u), '\n') == 1 + Count(u.userType, '\n')
  {
    var rest := QuoteSep + Numbers(u) + ", false, type(uint).max));";
    assert LineTail == ", false, type(uint).max));" + "\n";
    RenderUserSplit(u);
    assert RenderUser(u) == LineHead + (u.userType + (rest + "\n"));
    Decimal.NoNewlineInInt(u.energyBalance);
    Decimal.NoNewlineInInt(u.price);
    Decimal.NoNewlineInInt(u.classification);
    Decimal.NoNewlineInInt(u.radian);
    assert '\n' !in rest;
    CountAbsent(LineHead, '\n');
    CountAbsent(rest, '\n');
    CountConcat(rest, "\n", '\n');
    CountConcat(u.userType, rest + "\n", '\n');
    CountConcat(LineHead, u.userType + (rest + "\n"), '\n');
  }

  /** Number of newlines carried by the user types of `users`. */
  function TypeNewlines(users: seq<User>): nat {
    if users == [] then 0 else Count(users[0].userType, '\n') + TypeNewlines(users[1..])
  }

  /** The block holds one newline per record plus every newline of the user types. */
  lemma {:induction false} EntriesNewlineCount(users: seq<User>)
    ensures Count(Entries(users), '\n') == |users| + TypeNewlines(users)
    decreases |users|
  {
    if users != [] {
      CountConcat(RenderUser(users[0]), Entries(users[1..]), '\n');
      RenderUserNewlines(users[0]);
      EntriesNewlineCount(users[1..]);
    }
  }

  lemma {:induction false} TypeNewlinesZero(users: seq<User>)
    ensures TypeNewlines(users) == 0 <==> forall k :: 0 <= k < |users| ==> '\n' !in users[k].userType
    decreases |users|
  {
    if users != [] {
      CountZero(users[0].userType, '\n');
      TypeNewlinesZero(users[1..]);
      assert forall k :: 1 <= k < |users| ==> users[k] == users[1..][k - 1];
    }
  }

  /**
   * One line per record: the block holds exactly as many newlines as there
   * are records if and only if no user type holds a newline.
   */
  lemma EntriesNewlines(users: seq<User>)
    ensures Count(Entries(users), '\n') == |users| <==> forall k :: 0 <= k < |users| ==> '\n' !in users[k].userType
  {
    EntriesNewlineCount(users);
    TypeNewlinesZero(users);
  }

  /** The constructor's only statement when there are no records. */
  const OwnerLine: string := "        owner = msg.sender;\n"

  lemma Framed(p: string, e: string, x: string)
    ensures StartsWith(p + e + x, p)
    ensures EndsWith(p + e + x, x)
    ensures (p + e + x)[|p|..|p + e + x| - |x|] == e
  {
    assert p + e + x == p + (e + x);
    assert (p + e + x)[|p|..] == e + x;
  }

  /**
   * The file is always the fixed prefix, the block, then the fixed suffix;
   * the prefix opens with a newline and closes with the owner assignment,
   * and the suffix closes the constructor and the contract.
   */
  lemma OutputFraming(users: seq<User>)
    ensures StartsWith(Output(users), Prefix)
    ensures EndsWith(Output(users), Suffix)
    ensures Output(users)[|Prefix|..|Output(users)| - |Suffix|] == Entries(users)
    ensures Prefix[0] == '\n' && EndsWith(Prefix, OwnerLine)
    ensures Suffix == "    }\n}\n"
  {
    Framed(Prefix, Entries(users), Suffix);
  }

  /**
   * Empty input, and only empty input, gives the bare template: the
   * constructor then holds the owner assignment alone.
   */
  lemma OutputEmpty(users: seq<User>)
    ensures Output(users) == Prefix + Suffix <==> users == []
    ensures users == [] ==> EndsWith(Output(users), OwnerLine + Suffix)
  {
    if users != [] {
      LineShape(users[0]);
      assert |Entries(users)| > 0;
      assert |Output(users)| > |Prefix + Suffix|;
    } else {
      assert Output(users) == Prefix + Suffix;
      assert Prefix[|Prefix| - |OwnerLine|..] == OwnerLine;
      assert (Prefix + Suffix)[|Prefix + Suffix| - |OwnerLine + Suffix|..] == Prefix[|Prefix| - |OwnerLine|..] + Suffix;
    }
  }

  /** Reads a block back into records, statement by statement. */
  function ParseBlock(s: string): Option<seq<User>>
    decreases |s|
  {
    if s == [] then Some([])
    else
      match ParseLine(s)
      case None => None
      case Some((u, rest)) =>
        var us :- ParseBlock(rest);
        Some([u] + us)
  }

  /** Reads a generated file back into records: template around, block inside. */
  function ParseOutput(text: string): Option<seq<User>> {
    if |Prefix| + |Suffix| <= |text| && StartsWith(text, Prefix) && EndsWith(text, Suffix)
    then ParseBlock(text[|Prefix|..|text| - |Suffix|])
    else None
  }

  lemma ParseBlockStep(s: string, u: User, rest: string, us: seq<User>)
    requires ParseLine(s) == Some((u, rest))
    requires ParseBlock(rest) == Some(us)
    ensures ParseBlock(s) == Some([u] + us)
  {
  }

  /**
   * With quote-free user types the block determines the records: reading
   * it back yields the same records, as many of them and in the same order.
   */
  lemma {:induction false} ParseEntries(users: seq<User>)
    requires forall k :: 0 <= k < |users| ==> QuoteFree(users[k])
    ensures ParseBlock(Entries(users)) == Some(users)
    decreases |users|
  {
    if users != [] {
      var rest := Entries(users[1..]);
      ParseRenderUser(users[0], rest);
      ParseEntries(users[1..]);
      ParseBlockStep(Entries(users), users[0], rest, users[1..]);
      assert [users[0]] + users[1..] == users;
    }
  }

  /** The generated file gives the records back. */
  lemma ParseGenerated(users: seq<User>)
    requires forall k :: 0 <= k < |users| ==> QuoteFree(users[k])
    ensures ParseOutput(Output(users)) == Some(users)
  {
    OutputFraming(users);
    ParseEntries(users);
  }

  /** Different quote-free record lists never give the same file. */
  lemma OutputInjective(a: seq<User>, b: seq<User>)
    requires forall k :: 0 <= k < |a| ==> QuoteFree(a[k])
    requires forall k :: 0 <= k < |b| ==> QuoteFree(b[k])
    requires Output(a) == Output(b)
    ensures a == b
  {
    ParseGenerated(a);
    ParseGenerated(b);
  }

  /**
   * A user type is copied without escaping, so one record whose user type
   * carries a quote, the rest of a statement and the head of the next
   * renders exactly as the two records `u` and `v` do.
   */
  function Impersonator(u: User, v: User): User {
    User(u.userType + QuoteSep + Numbers(u) + LineTail + LineHead + v.userType,
         v.energyBalance, v.price, v.classification, v.radian)
  }

  lemma Regroup(h: string, x: string, q: string, n1: string, t: string, y: string, n2: string)
    ensures h + (x + q + n1 + t + h + y) + q + n2 + t == (h + x + q + n1 + t) + (h + y + q + n2 + t)
  {
  }

  /** Two different record lists, one block: the block alone does not determine the records. */
  lemma UnescapedQuote(u: User, v: User)
    ensures Entries([Impersonator(u, v)]) == Entries([u, v])
    ensures [Impersonator(u, v)] != [u, v]
  {
    var m := Impersonator(u, v);
    RenderUserSplit(u);
    RenderUserSplit(v);
    RenderUserSplit(m);
    assert Numbers(m) == Numbers(v);
    Regroup(LineHead, u.userType, QuoteSep, Numbers(u), LineTail, v.userType, Numbers(v));
    var lineU, lineV := RenderUser(u), RenderUser(v);
    assert RenderUser(m) == lineU + lineV;
    EntriesAppend([u], v);
    EntriesAppend([], u);
    EntriesAppend([], m);
    assert [u] + [v] == [u, v];
  }
}
