# Miunie paginator, modelled in Dafny

Miunie is a Discord bot. When a command's result is a long list, the bot shows it one page at a time inside an embed. The static class `Paginator` (src/Miunie.Discord/Embeds/Paginator.cs) does this work:

- it counts the pages of a set;
- it cuts one page out of the set (`GroupAt`), optionally making the page up to its full size with a default item;
- it renders items to strings, padding a short list with a default string (`GetValues`);
- it joins a page into text, one line per item (`Paginate`);
- it decides whether to write a "Page x of y" footer and builds its text (`CanCreateFooter`, `GetPageFooter`);
- it writes the page into an embed builder, either as the description (`PaginateEmbed`) or as up to 25 fields (`PaginateEmbedWithFields`).

The project has four modules:

- `Wrappers` (wrappers.dfy): `Option` stands in for a C# null, and `Outcome` for an operation that may throw an argument error.
- `Text` (text.dfy): .NET white space, the decimal rendering of an `int` with its parser, and the text `AppendLine` accumulates with its splitter.
- `Embeds` (embeds.dfy): the part of the library's `EmbedBuilder` that the paginator writes to, as a class with a footer, a description and a field list.
- `Paginator` (paginator.dfy): the paginator itself. Pure computations are functions. `GroupAt`, `GetValues`, `Paginate` and `PaginateEmbedWithFields` are methods whose loops mirror the source's loops, and each is proved equal to a specification function (`Group`, `Values`, `Lines`, `FieldRows`). `PaginateEmbed` has no loop of its own: it is a method that updates the embed, and its contract gives the embed's new footer, description and fields.

Every source method that takes `IEnumerable<T>` takes a `seq<T>` here. Other C# inputs are mapped as follows:

- `Func<T, string> writer` is a parameter `writer: T -> string`. The overloads without a writer call `x.ToString()`, so they are the same members with `ToString` passed as `writer`.
- A `string defaultOnUnderflow` that may be null is an `Option<string>`.
- `GroupAt`'s `bool defaultOnUnderflow` is an `Option<T>`. `Some(zero)` stands for `true`, where `zero` is the type's `default(T)`. `default(T)` in `PaginateEmbedWithFields` is the parameter `zero`.

### Padding and empty sets

- **Padding.** `GetValues` pads the whole rendered list up to `pageSize`, not the last page, and only when the page it reaches is short. So a default never fills a short last page of a longer set; only a set smaller than one page is ever padded. Seven items in pages of five show two strings on page index 1 (`SevenItemsInPagesOfFive`).
- **Empty sets.** `GetValueCountAtPage` clamps the index into the page range with a maximum of −1 when the set is empty. The count therefore comes out as 0 for a negative index and as `pageSize` otherwise. As a result, an empty set with a default shows nothing for an index ≥ 0 but `pageSize` defaults for a negative index (`ValuesEmptySet`).

## Model

| member | source | states |
|---|---|---|
| `Paginator.PageCount` | src/Miunie.Discord/Embeds/Paginator.cs:229-232 | The page count `c` is the ceiling of n / pageSize: `n <= c * pageSize < n + pageSize`. An empty set has 0 pages. A set has more than one page exactly when it holds more than `pageSize` items. `pageSize` divides `n` exactly when `n == c * pageSize`. |
| `Paginator.Clamp` | src/Miunie.Discord/Embeds/Paginator.cs:240-245 | When `min <= max`, the result lies in `[min, max]` and is the point of that interval nearest to `value`. When `max < min`, the result is `min` for values below `min` and `max` for all other values. |
| `Paginator.ValueCountAtPageIs` | src/Miunie.Discord/Embeds/Paginator.cs:234-238 | About the function `Paginator.ValueCountAtPage`, which models `GetValueCountAtPage`. For an empty set the count is 0 for a negative index and `pageSize` otherwise. For a non-empty set it is between 1 and `pageSize`. It is below `pageSize` exactly when `pageSize` does not divide the size and the clamped index is the last page. |
| `Paginator.Group` | src/Miunie.Discord/Embeds/Paginator.cs:65-101 | An index outside `[0, pageCount)` returns the input unchanged. Without a fill, an in-range page is the contiguous slice `s[p*i .. min(p*i + p, n)]`. With a fill, an in-range page has exactly `p` items: the slice, then the fill value. |
| `Paginator.GroupAt` | src/Miunie.Discord/Embeds/Paginator.cs:65-101 | The item-by-item loop builds exactly the page `Group` describes, with or without a fill. |
| `Paginator.GroupSize` | src/Miunie.Discord/Embeds/Paginator.cs:78-100 | An in-range page holds 1 to `pageSize` items. Every page before the last is full, and the last page holds the `n - p*i` items left over. |
| `Paginator.PagesReassemble` | src/Miunie.Discord/Embeds/Paginator.cs:71-100 | Concatenating pages `0 .. pageCount - 1` in order gives back the whole set. So nothing is lost, repeated or reordered, and the page sizes add up to `n`. |
| `Paginator.GetValues` | src/Miunie.Discord/Embeds/Paginator.cs:26-63 | The rendering, padding loop and cut yield exactly `Values`: the rendered list, padded to `pageSize` when the page reached is short, then paged without fill. |
| `Paginator.ValuesUnpadded` | src/Miunie.Discord/Embeds/Paginator.cs:54-62 | Without a default, or for a set of at least `pageSize` items, the strings are exactly that page of the rendered items, because the padding loop adds nothing. |
| `Paginator.ValuesShortSet` | src/Miunie.Discord/Embeds/Paginator.cs:54-62 | For a default and `0 < n < pageSize`, the result is exactly the `n` rendered items followed by `pageSize - n` copies of the default, for every index. |
| `Paginator.ValuesEmptySet` | src/Miunie.Discord/Embeds/Paginator.cs:54-62 | An empty set shows nothing, except with a default and a negative index, where it shows `pageSize` defaults. |
| `Paginator.ValuesLastPageShort` | src/Miunie.Discord/Embeds/Paginator.cs:54-62 | For a set of more than one page, with or without a default, the last page shows only the `n - p*(pageCount - 1)` items left over. |
| `Paginator.SevenItemsInPagesOfFive` | src/Miunie.Discord/Embeds/Paginator.cs:54-62 | Seven items in pages of five, with a default: page index 1 shows two strings. |
| `Paginator.ValuesFrom` | src/Miunie.Discord/Embeds/Paginator.cs:52-62 | Every string shown is the rendering of an item of the set or the default string. |
| `Paginator.Paginate` | src/Miunie.Discord/Embeds/Paginator.cs:176-205 | The `StringBuilder` loop returns each string of the `GetValues` page followed by a line terminator, in order. |
| `Paginator.PageTextLines` | src/Miunie.Discord/Embeds/Paginator.cs:196-204 | When neither the rendered items nor the default contain a line terminator, splitting the page text gives back exactly the page's strings. |
| `Paginator.CanCreateFooter` | src/Miunie.Discord/Embeds/Paginator.cs:207-213 | `On` always writes a footer and `Off` never does. `Auto` writes one exactly when the set holds more than `pageSize` items, that is, when it spans more than one page. |
| `Paginator.PageFooter` | src/Miunie.Discord/Embeds/Paginator.cs:215-227 | The text ends with "Page {index + 1} of {pageCount}" for the unclamped index. Parsing it back returns the earlier footer text (only when that text is not blank), `index + 1` and the page count. |
| `Paginator.FooterTwelveByFive` | src/Miunie.Discord/Embeds/Paginator.cs:207-227 | Twelve items in pages of five at index 1 under `Auto` get a footer, and it reads "Page 2 of 3". |
| `Paginator.FooterAfterEarlierText` | src/Miunie.Discord/Embeds/Paginator.cs:219-224 | After an earlier footer "Ranking", the footer reads "Ranking", the separator, then "Page 2 of 3". |
| `Paginator.NoFooterForOnePage` | src/Miunie.Discord/Embeds/Paginator.cs:207-213 | Three items in pages of five get no footer under `Auto`. |
| `Text.IntString` | src/Miunie.Discord/Embeds/Paginator.cs:224 | An interpolated `int` starts with a minus sign exactly when it is negative. The rest of the text is one or more decimal digits, in canonical form: zero is written "0", and any other number has no leading zero. |
| `Text.ParseIntSuffixOf` | src/Miunie.Discord/Embeds/Paginator.cs:224 | A number written after a space in the footer reads back as the same `int`, leaving the text before it. |
| `Text.SplitLinesOfLines` | src/Miunie.Discord/Embeds/Paginator.cs:181-186 | Text built with `AppendLine` from items without a terminator splits back into those items, in order. |
| `Paginator.PaginateEmbed` | src/Miunie.Discord/Embeds/Paginator.cs:143-174 | The footer is replaced by `PageFooter` (built from the old footer text) only when `CanCreateFooter` allows. The description becomes the page text. The fields are unchanged. |
| `Paginator.FieldRows` | src/Miunie.Discord/Embeds/Paginator.cs:116-131 | A field page has exactly `pageSize` fields, none inline. |
| `Paginator.FieldRowsInRange` | src/Miunie.Discord/Embeds/Paginator.cs:116-131 | For an in-range index, slot `k` is `writer(s[p*index + k])`, or `writer(default)` past the end of the set. |
| `Paginator.FieldRowsOutOfRange` | src/Miunie.Discord/Embeds/Paginator.cs:116-131 | For an out-of-range index, slot `k` is `writer(s[k])`: the first `pageSize` items of the whole set, then `writer(default)`. |
| `Paginator.PaginateEmbedWithFields` | src/Miunie.Discord/Embeds/Paginator.cs:103-141 | When `pageSize > 25`, it fails with the argument error and leaves the embed unchanged. Otherwise the fields become exactly `FieldRows`, and the footer follows the footer rule. The description is unchanged. |
| `Embeds.EmbedBuilder.WithFooter` | src/Miunie.Discord/Embeds/Paginator.cs:153 | Replaces the footer with one showing the given text. Nothing else changes. |
| `Embeds.EmbedBuilder.WithDescription` | src/Miunie.Discord/Embeds/Paginator.cs:156 | Replaces the description. Nothing else changes. |
| `Embeds.EmbedBuilder.SetFields` | src/Miunie.Discord/Embeds/Paginator.cs:138 | Replaces the field list with at most 25 fields. Nothing else changes. |

## Left out

- The command dispatcher (src/Miunie.Discord/CommandHandler.cs) is not modelled. It ignores anything that is not a user message (CommandHandler.cs:48-51). It passes a user message to the chat library's command service only when the text begins with a mention of the bot (`HasMentionPrefix`, CommandHandler.cs:54), and it logs the reason when a command fails (CommandHandler.cs:65-68). The library's service does the parsing, command lookup and precondition checks. It calls the registered type readers, among them the bot's own `MiunieUserTypeReader` (CommandHandler.cs:37).
- src/Miunie.Discord/Extensions/CommandInfoExtensions.cs is not modelled. Its one-line attribute lookups run over library metadata.
- The desktop application's view models and image model are not modelled. Their work is data binding, the clipboard and dispatcher-thread marshalling.
- The reputation and message entities are not modelled. They are plain data holders.
- `pageSize <= 0`: every member requires `pageSize > 0`. The source has no guard. With a page size of zero, `GetPageCount` divides a `double` by zero, which gives infinity or NaN rather than an error, and the cast to `int` then yields an unspecified count. That behaviour is not modelled.
- `Paginator.PageCount`: uses integer ceiling division in place of `Math.Ceiling` over `double`. The two agree for every pair of 32-bit counts, because the quotient of two such integers is never rounded onto the wrong side of an integer.
- Integer overflow of `pageSize * index` and `index + 1` is not modelled. Integers here are unbounded.
- `Environment.NewLine` is abstracted to the single character `'\n'`.
- Interpolating a negative `int` is modelled with a plain `-` sign. Culture-specific negative signs are not modelled.
- Exceptions thrown from inside `ToString`, a writer, or the library's checks are not modelled. The checks include the length limits, and the field builder's refusal of a blank field name or an empty field value. `writer(zero)` in a slot past the end of the set can produce either. Other examples are a null item, or a description or footer over the library's length limits.
- The footer icon and the returned builder are not modelled. `WithFooter` also clears the footer's icon, and each embed method returns the same builder it was given; the model has no icon and returns nothing.
