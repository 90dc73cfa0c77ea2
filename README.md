# SDJSONPrettyPrint, modelled in Dafny

SDJSONPrettyPrint turns a tree of JSON-compatible Foundation objects into
human-friendly JSON text. Its public header declares two things:

- `SDJSONKeyValuePair`: a key, its value and the depth of the pair in the
  object tree. This is what the member-ordering comparator is handed.
- `SDJSONPrettyPrint`: a printer with a settable `objectSortingComparator`.
  Its instance method `-stringFromJSONObject:` returns the JSON text of a tree.
  Its class method `+stringFromJSONObject:` makes the same call on a printer
  in the default configuration.

The header also states the default ordering of an object's members in five
rules, and promises that the output is JSON-compliant.

This project models those parts:

- `json.dfy` (module `Json`): the JSON value tree. An object is the sequence
  of its members, in the order they are handed to the sort.
- `sorting.dfy` (module `Sorting`): sorting with an `NSComparator`-style
  comparator (`NSComparisonResult` is `ComparisonResult`), modelled as a
  stable insertion sort. The lemmas prove that the sort:
  - permutes its input;
  - returns a sorted sequence when the comparator is a total preorder;
  - leaves the order alone when every pair compares the same;
  - commutes with a map.
- `ordering.dfy` (module `KeyOrdering`): `SDJSONKeyValuePair` as a value,
  and the default comparator. The comparator groups values as one-liner
  arrays (and scalars), then nulls, then objects, then block arrays, and
  within a group orders by key, ordinal and case-sensitive. It is proved to
  be a total preorder.
- `text.dfy` (module `JsonText`): the text written for a tree. The header
  shows no layout, so this one is assumed: a one-liner array is `[ a, b ]`,
  and a block array or an object puts one entry per line, one level deeper,
  with its closing bracket on a line of its own.
- `parser.dfy` and `roundtrip.dfy` (`JsonParser`, `TextRoundTrip`): a parser
  for integer-only JSON, and the proof that it reads back every emitted tree
  exactly, for every whitespace indentation. The parser refuses every number
  with a leading zero, as JSON does (`TextRoundTrip.LeadingZeroRejected`).
- `printer.dfy` (module `PrettyPrint`):
  - the tree as printed (`SortTree`): every object's members are ordered by
    the comparator over their key/value pairs, tagged with the object's
    depth;
  - the relation "same tree up to member order";
  - the class `PrettyPrinter`, with its `objectSortingComparator` field and
    the two `stringFromJSONObject:` methods.

The five rules, read literally one after another, are cyclic. Rule 4 puts a
one-liner array before null, rule 3 puts null before an object, and rule 2
puts an object before every array. `KeyOrdering.LiteralRulesCycle` exhibits
the cycle. Reading rule 2 first would give object, one-liner array, null,
block array, which contradicts rule 3. The model follows rules 1, 3 and 4,
and reads rule 2 as comparing objects with block arrays only.

The default comparator agrees with the literal rules except on two kinds of
pair (`KeyOrdering.DefaultAgreesWithLiteralRules`):
- a one-liner array against an object, where the literal reading is cyclic;
- a boolean, number or string against null or an object. The literal reading
  orders these by key; the default comparator orders them by group.

## Model

| member | source | states |
|---|---|---|
| KeyOrdering.CompareStrings | SDJSONPrettyPrint/SDJSONPrettyPrint.h:52 | alphabetical key order calls two keys the same exactly when they are equal |
| KeyOrdering.CompareStringsAntisymmetric | SDJSONPrettyPrint/SDJSONPrettyPrint.h:52 | swapping the keys flips the answer |
| KeyOrdering.CompareStringsTransitive | SDJSONPrettyPrint/SDJSONPrettyPrint.h:52 | key order is transitive |
| KeyOrdering.CompareStringsDecidedAt | SDJSONPrettyPrint/SDJSONPrettyPrint.h:52 | which key comes first: after a common prefix, a key that ends there comes before a longer one, and otherwise the first differing character decides |
| KeyOrdering.DefaultCompare | SDJSONPrettyPrint/SDJSONPrettyPrint.h:44-53 | rule 1: a block array comes after every other value, in both directions; rule 2: an object comes before a block array; rule 3: null comes before an object, in both directions; rule 4: a one-liner array comes before null, in both directions; rule 5: within a group the key order decides; the answer is "same" exactly when key and group agree |
| KeyOrdering.DefaultCompareAntisymmetric | SDJSONPrettyPrint/SDJSONPrettyPrint.h:44-53 | swapping the pairs flips the default comparator's answer |
| KeyOrdering.DefaultCompareTransitive | SDJSONPrettyPrint/SDJSONPrettyPrint.h:44-53 | the default comparator is transitive, strictly so when either step is strict |
| KeyOrdering.DefaultComparatorTotalPreorder | SDJSONPrettyPrint/SDJSONPrettyPrint.h:44-53 | the default comparator is a total preorder for every one-liner test |
| KeyOrdering.DefaultSortedLayout | SDJSONPrettyPrint/SDJSONPrettyPrint.h:48-52 | pairs sorted by the default comparator have ascending groups, block arrays last, and keys ascending within a group (strictly between distinct keys) |
| KeyOrdering.LiteralRulesCycle | SDJSONPrettyPrint/SDJSONPrettyPrint.h:49-51 | the rules read literally put a one-liner array before null, null before an object and the object before the array, so they are not transitive |
| KeyOrdering.DefaultAgreesWithLiteralRules | SDJSONPrettyPrint/SDJSONPrettyPrint.h:48-52 | the default comparator gives the literal rules' answer on every pair except a one-liner array against an object, and a scalar against null or an object |
| Sorting.SortPermutes | SDJSONPrettyPrint/SDJSONPrettyPrint.h:44-47 | sorting rearranges only: the result holds each element exactly as often as the input |
| Sorting.MapSortCommutes | SDJSONPrettyPrint/SDJSONPrettyPrint.h:44-47 | sorting by a comparator that looks only at a projection commutes with that projection |
| Sorting.SortSorted | SDJSONPrettyPrint/SDJSONPrettyPrint.h:44-47 | sorting with a total preorder yields a sorted sequence |
| Sorting.SortStableWhenAllSame | SDJSONPrettyPrint/SDJSONPrettyPrint.h:44-47 | a comparator that calls every pair the same leaves the order as it was |
| Sorting.SortKeepsDistinct | SDJSONPrettyPrint/SDJSONPrettyPrint.h:44-47 | sorting a sequence without repetitions produces none |
| Sorting.SortedUnique | SDJSONPrettyPrint/SDJSONPrettyPrint.h:44-47 | two sorted arrangements of the same elements are equal when the comparator calls no two different elements the same |
| PrettyPrint.Entries | SDJSONPrettyPrint/SDJSONPrettyPrint.h:34-41 | an object's pairs carry each member's key and value and the object's depth, in member order |
| PrettyPrint.SortTree | SDJSONPrettyPrint/SDJSONPrettyPrint.h:44-47 | ordering members keeps scalars as they are and keeps each array's and object's kind and size |
| PrettyPrint.ObjectMembersFollowEntries | SDJSONPrettyPrint/SDJSONPrettyPrint.h:44-54 | the printed members of an object are its pairs in the order the active comparator sorts them, each value printed one level deeper |
| PrettyPrint.SortedEntriesOfObject | SDJSONPrettyPrint/SDJSONPrettyPrint.h:39-40 | the sorted pairs are exactly the object's key/value pairs, each carrying the object's depth |
| PrettyPrint.SortedByComparator | SDJSONPrettyPrint/SDJSONPrettyPrint.h:54 | any assigned comparator that is a total preorder leaves each object's pairs sorted by it |
| PrettyPrint.OrderKeptWhenAllSame | SDJSONPrettyPrint/SDJSONPrettyPrint.h:54 | a comparator that calls every pair the same prints members in the object's own order |
| PrettyPrint.SortTreeKeepsTier | SDJSONPrettyPrint/SDJSONPrettyPrint.h:48-51 | ordering a value's members does not change the group the default comparator puts it in |
| PrettyPrint.DefaultOrderOfEntries | SDJSONPrettyPrint/SDJSONPrettyPrint.h:44-53 | with distinct keys, the default comparator sorts an object's pairs strictly ascending: groups ascending, block arrays last, keys strictly ascending within a group |
| PrettyPrint.DefaultOrderUnique | SDJSONPrettyPrint/SDJSONPrettyPrint.h:44-53 | with distinct keys, every arrangement of an object's pairs that the default comparator calls sorted is the one the model's sort returns, so the choice of sort algorithm does not change the output |
| PrettyPrint.DefaultPrintedOrder | SDJSONPrettyPrint/SDJSONPrettyPrint.h:48-52 | the members the default printer writes for an object with distinct keys have ascending groups and strictly ascending keys within a group |
| PrettyPrint.SortTreeSame | SDJSONPrettyPrint/SDJSONPrettyPrint.h:60-61 | the printed tree is the input tree with only object members rearranged, by a permutation at every object |
| PrettyPrint.RenderRoundTrip | SDJSONPrettyPrint/SDJSONPrettyPrint.h:71-72 | the text parses, by an integer-only JSON parser, back to the printed tree, which is the input up to member order |
| TextRoundTrip.EmitRoundTrip | SDJSONPrettyPrint/SDJSONPrettyPrint.h:71-72 | the text written for any tree, with any whitespace indentation, parses back to that tree |
| TextRoundTrip.ValueRoundTrip | SDJSONPrettyPrint/SDJSONPrettyPrint.h:71-72 | a written value, after any whitespace and before anything that cannot extend it, reads back as itself |
| TextRoundTrip.EscapeRoundTrip | SDJSONPrettyPrint/SDJSONPrettyPrint.h:71-72 | an escaped string literal reads back as the characters it was written from |
| TextRoundTrip.IntegerRoundTrip | SDJSONPrettyPrint/SDJSONPrettyPrint.h:71-72 | an integer reads back as itself |
| TextRoundTrip.NaturalTextNoLeadingZero | SDJSONPrettyPrint/SDJSONPrettyPrint.h:71-72 | an integer is written without a leading zero, as JSON requires, except for zero itself |
| PrettyPrint.PrettyPrinter.constructor | SDJSONPrettyPrint/SDJSONPrettyPrint.h:56-59 | a new printer holds the default comparator |
| PrettyPrint.PrettyPrinter.StringFromJSONObject | SDJSONPrettyPrint/SDJSONPrettyPrint.h:65-74 | the text is the tree ordered by this printer's current comparator; an integer-only JSON parser reads it back as that tree, which is the input up to member order |
| PrettyPrint.PrettyPrinter.StringFromJSONObjectByDefault | SDJSONPrettyPrint/SDJSONPrettyPrint.h:56-63 | the class method returns what a default-configured printer returns, which parses back to the input up to member order |

## Left out

- Foundation's runtime classes (`NSObject`, `NSDictionary`, `NSArray`, `NSString`, `NSNumber`, `NSNull`). The value tree is a datatype.
- Numbers are integers. `NSNumber` formatting, floating point and exponents are foreign code.
- Objects that are not JSON-compatible, and non-finite numbers, cannot be represented in the value datatype; what the printer does with them is not modelled.
- Recursion depth is unbounded; running out of stack on very deep trees is not modelled.
- SDJSONPrettyPrint.m is not part of this model. The exact indentation is not visible in the header, so the text module takes the indentation unit as a parameter, and every lemma holds for any whitespace unit. `PrettyPrint.DefaultLayout` fixes two spaces; that choice is assumed.
- The header does not define "one-liner". The printer uses the structural definition: every element is a scalar or null. The default comparator takes the one-liner test as a parameter, and its lemmas hold for every test.
- The header only says that a pair carries its depth in the object tree, not where counting starts. The model assumes the root value is at depth 0, a member's value and an array's element are one level deeper than their container, and an object's pairs carry the object's own depth. A custom comparator that reads `depth` sees this choice.
- KeyOrdering.DefaultCompare: rule 2 is only stated for objects against block arrays. Read literally against one-liner arrays, the rules are cyclic (`KeyOrdering.LiteralRulesCycle`). Booleans, numbers and strings are ranked by no rule; they are assumed to sit in the one-liner group.
- The sort algorithm Foundation uses is not visible. The model sorts with a stable insertion sort. Its stability is a model choice: `Sorting.SortStableWhenAllSame` and `PrettyPrint.OrderKeptWhenAllSame` rest on it, and SDJSONPrettyPrint.h:44-54 does not promise it (Foundation keeps ties in order only when asked for a stable sort). The other sort lemmas hold for any sort whose result is a sorted permutation. For the default comparator and distinct keys, any sort whose result is sorted gives the same output (`PrettyPrint.DefaultOrderUnique`).
- Duplicate keys are allowed in an object value, since the sequence of members is modelled rather than a dictionary. The default-order lemmas require distinct keys, as a dictionary guarantees.
- String escaping covers only the quote, the backslash and control characters (as `\u00XX`). `\/`, surrogate pairs and UTF-16 code units (RFC 8259 section 7) are left out; strings are sequences of Dafny characters.
- The parser is a parser for integer-only JSON. It reads every escape JSON defines, but refuses every `\u` escape of a surrogate code unit (D800 to DFFF), including a valid surrogate pair such as `\ud83d\ude00`, which JSON allows. The printer writes only `\u00XX` escapes, so the round trip does not depend on this. It is a means of stating the output contract, not a model of a part of the system. That it accepts nothing but JSON is by construction; no lemma states it.
- `SDJSONKeyValuePair`'s mutable properties are modelled as an immutable value. This assumes the printer builds the pairs for each object being sorted and does not change them afterwards; SDJSONPrettyPrint.m, where that happens, is not part of this model.
- "Alphabetically" (rule 5) is assumed to mean an ordinal, case-sensitive comparison of Unicode code points. `NSString` comparison works on UTF-16 code units and may use other options (case-insensitive, localized or numeric); those are not modelled.
- The text layout is assumed, since the header shows none of it: the one-liner form `[ a, b ]` with one space inside the brackets; a line break before each entry of a block array or object and before its closing bracket; the `": "` between a key and its value; `[]` and `{}` for empty containers. Only the indentation unit is a parameter. The round-trip lemmas hold for this layout, not for whatever SDJSONPrettyPrint.m writes.
- Assigning `objectSortingComparator` is a plain field assignment. No setter method is modelled.
- `objectSortingComparator` is never nil in the model; what the printer does when it is set to nil is not modelled.
- The thread-safety of the `nonatomic` and `copy` properties concerns concurrency, which is not modelled.
- The remark comparing the printer with JSONKit, and its performance, state no behaviour.
