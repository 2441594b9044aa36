# SmartGridMapping generator, modelled in Dafny

`sol_generation.py` turns a list of user records (read from `users.json`)
into the Solidity source `SmartGridMappingGenerated.sol`. Each record becomes
one `users.push(User(...));` statement in the constructor of a fixed
`SmartGridMapping` contract. This project models that serialiser:

- `decimal.dfy` (module `Decimal`): Python's `str(int)` as it appears inside
  the f-string (`NatToString`, `IntToString`), with a reader (`DigitsValue`,
  `IntValue`, `ReadInt`) that the formatting is proved against.
- `user_line.dfy` (module `UserLine`): the record type `User` and the
  per-record f-string `RenderUser` (line 8). `ParseLine` is its inverse for records whose user type holds no double quote.
- `generator.dfy` (module `Generator`): the accumulation loop as the method
  `BuildEntries`, proved against the function `Entries` (lines 6-9). The
  template is held in the constants `Prefix` and `Suffix` (lines 11-34).
  `Output` is the whole file and `Generate` is the script end to end. `ParseBlock`
  and `ParseOutput` read a block and a file back.
- `wrappers.dfy` (module `Wrappers`): the `Option` type used by the readers.

The f-string's doubled braces `{{` and `}}` appear as single braces in
`Prefix` and `Suffix`, because that is what the script writes. Records
arrive already parsed, as a `seq<User>`. All four numbers are unbounded
integers, as Python's `int` is. The Solidity `uint` declarations are not
enforced, because the script does not enforce them either: a negative
`Price` is written as `-5`.

The user type is copied with no escaping. For that reason the round-trip
and injectivity lemmas require that no user type contain a double quote.
`UnescapedQuote` shows that this condition cannot be dropped.

## Model

| member | source | states |
|---|---|---|
| Decimal.NatToString | sol_generation.py:8 | the text of a non-negative number is non-empty, all decimal digits, and has no leading zero except for `0` itself |
| Decimal.IntToString | sol_generation.py:8 | the text of an integer is non-empty, begins with `-` exactly when the integer is negative, and is otherwise made of decimal digits; a negative number's digits have no leading zero |
| Decimal.CanonicalInt | sol_generation.py:8 | every literal that denotes `i`, has no leading zero and is not `-0` is the text produced for `i`, so negative numbers too are rendered in the canonical form that `str` gives |
| Decimal.IntValueOfIntToString | sol_generation.py:8 | reading the text of `i` back as a decimal literal gives exactly `i` |
| Decimal.IntToStringInjective | sol_generation.py:8 | different integers get different texts |
| Decimal.CanonicalDecimal | sol_generation.py:8 | every digit string that has value `n` and no superfluous leading zero is the text produced for `n`, so the rendering is the canonical base-10 form that `str` gives |
| Decimal.ReadIntOfIntToString | sol_generation.py:8 | a number's text followed by a non-digit is read back as that number, and exactly the following text is left |
| UserLine.RenderUser | sol_generation.py:8 | the per-record f-string; it has no ensures of its own, and its contract is carried by `LineShape`, `ParseRenderUser` and `RenderUserNewlines` |
| UserLine.LineShape | sol_generation.py:8 | for every record, the line starts with eight spaces and `users.push(User("`. The user type follows verbatim, then a closing quote. The line ends with `, false, type(uint).max));` and a newline, and its length is the sum of its parts |
| UserLine.ParseRenderUser | sol_generation.py:8 | parsing a rendered line gives back the record: the user type between the quotes, then EnergyBalance, Price, Classification and Radian in that order. The text after the line is left untouched. Requires a quote-free user type |
| Generator.Entries | sol_generation.py:6-9 | the block that the loop accumulates; it has no ensures of its own, and its contract is carried by `BuildEntries`, `EntriesSlot`, `EntriesLength`, `EntriesNewlines` and `ParseEntries` |
| Generator.Output | sol_generation.py:11-34 | the template with the block spliced in, built from the constants `Prefix` and `Suffix`; it has no ensures of its own, and its contract is carried by `OutputFraming`, `OutputEmpty`, `ParseGenerated` and `OutputInjective` |
| Generator.BuildEntries | sol_generation.py:6-9 | the loop that starts from `""` and appends each record's line in input order yields exactly the block `Entries(users)` |
| Generator.Generate | sol_generation.py:6-34 | the text written is `Output(users)`, a function of the records alone, so equal inputs give identical files |
| Generator.EntriesConcat | sol_generation.py:6-9 | the block of two record lists placed back to back is the two blocks placed back to back |
| Generator.EntriesAppend | sol_generation.py:9 | appending one record appends exactly its line to the block |
| Generator.EntriesSlot | sol_generation.py:7-9 | the line for `users[i]` sits in the block right after the lines for `users[..i]` and right before the lines for the records after it |
| Generator.EntriesLength | sol_generation.py:6-9 | the length of the block is the sum of the lengths of the rendered lines |
| Generator.RenderUserNewlines | sol_generation.py:8 | a line holds one newline of its own plus every newline of its user type, which is copied unescaped |
| Generator.EntriesNewlineCount | sol_generation.py:6-9 | the block holds one newline per record plus every newline of the user types |
| Generator.EntriesNewlines | sol_generation.py:6-9 | the block holds exactly one newline per record if and only if no user type holds a newline |
| Generator.OutputFraming | sol_generation.py:11-34 | the file is the fixed prefix, then the block, then the fixed suffix. The prefix begins with a newline and ends with `owner = msg.sender;` and a newline. The suffix is `    }\n}\n` |
| Generator.OutputEmpty | sol_generation.py:30-33 | the file is the bare template exactly when there are no records. The constructor then holds only the owner assignment |
| Generator.ParseEntries | sol_generation.py:6-9 | reading the block back yields the records, with the same count and order. Requires quote-free user types |
| Generator.ParseGenerated | sol_generation.py:11-34 | reading the generated file back yields the records. Requires quote-free user types |
| Generator.OutputInjective | sol_generation.py:6-34 | two different lists of quote-free records never give the same file |
| Generator.UnescapedQuote | sol_generation.py:8 | because the user type is not escaped, a single record whose user type embeds a quote, the rest of one statement and the head of the next renders the same block as the two records `u` and `v` |

## Left out

- Reading and parsing `users.json` (lines 3-4). This is file I/O and the JSON library. The records are a parameter of `Generate`.
- Writing `SmartGridMappingGenerated.sol` (lines 36-37). This is file I/O with overwrite semantics. `Generate` returns the text instead.
- The `KeyError` raised for a record that lacks a field (line 8). A typed `User` always has all five fields. Because of this, the fact that such a failure stops the script before the output file is opened (line 36) is not modelled either.
- Field values that are not integers (floats, booleans, nested JSON). Python formats these with its own `str`, so the numbers are modelled as integers only.
- `UserType` values that are not strings. The script formats any JSON value there (`null` is written as `None`, `5` as `5`), but `User.userType` is modelled as a string only.
- What the generated Solidity means (`msg.sender`, `type(uint).max`, the `uint` range). To the script this is only literal text.
