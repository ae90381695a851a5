# Reevit core SDK: intent cache, checkout reducer and regional helpers

This project models three pieces of the Reevit checkout SDK and proves
properties about them.

- **Intent identity and cache** (`src/intent.ts`). A process-wide map goes
  from an idempotency key to a cache entry. An entry holds an optional
  in-flight promise, an optional response, an optional payment reference and
  an expiry time.
  - The map's operations are: lazy expiry on lookup, pruning every expired
    entry, a merging write that refreshes a ten-minute TTL, and an
    unconditional delete.
  - `resolveIntentIdentity` sits on top of them. It picks the idempotency key
    (the caller's, or a hash of a canonical payload), then picks the payment
    reference (the caller's, else the cached one, else a fresh one), and
    writes the reference back.
  - The map is the `entries` field of class `Intent.IntentCache`, and each
    operation is a method that updates it. Each method is proved against a
    pure function of the old map (`Live`, `LiveEntry`, `Store`, `Resolve`).
    The lemmas are stated about those functions.
- **Checkout reducer** (`src/state.ts`). `reevitReducer` is a total,
  guard-free function from a state and an action to a new state. The state
  has eight statuses and four payload slots. The model adds an `Unknown`
  action for the reducer's `default:` arm.
- **Regional helpers** (`src/utils.ts`):
  - `validatePhone` for Ghanaian, Nigerian and Kenyan mobile-money numbers,
    and `formatPhone` and `detectNetwork`, which handle Ghanaian numbers
    only (`formatPhone` changes a number only for the country `GH`, and
    `detectNetwork` knows only Ghanaian prefixes);
  - `getContrastingColor` and `createThemeVariables` for theming;
  - `cn` for class names;
  - `detectCountryFromCurrency`.

The ECMAScript built-ins that these helpers depend on are written out in
module `JsBuiltins`:

- `trim`, with the WhiteSpace and LineTerminator sets of ECMA-262 sections
  12.2 and 12.3;
- `toUpperCase`;
- `replace(/\D/g, '')`;
- `startsWith`;
- the clamped `slice`;
- `parseInt(s, 16)` as ECMA-262 section 19.2.5 defines it. It skips leading
  whitespace, takes an optional sign and an optional `0x`, then the longest
  hexadecimal prefix. NaN is `None`.

Files:

- `wrappers.dfy`: `Option`.
- `types.dfy`: payment methods and their wire names.
- `js_builtins.dfy`: the ECMAScript built-ins.
- `intent.dfy`: the intent cache and the resolver.
- `state.dfy`: the reducer.
- `utils.dfy`: the helpers.

Behaviour one might expect that the code does not have:

- `INIT_SUCCESS` stores the intent and leaves `selectedMethod` alone. It
  does not auto-select a lone payment method (src/state.ts:50). The bundled
  `dist/` build does auto-select, but it is an older build.
- `cacheIntentPromise` merges into the live entry (src/intent.ts:112). On an
  entry that already holds a response, the entry then holds both a promise
  and a response (`Intent.ResponseThenPromiseHoldsBoth`).
- The idempotency payload keeps `paymentMethods` in the caller's order. It
  does not sort them (src/intent.ts:70, `Intent.PayloadKeepsMethodOrder`).

## Model

| member | source | states |
|---|---|---|
| `Types.MethodName` | dist/index.d.ts:5 | the wire name of each payment method is a non-empty string (`card`, `mobile_money`, ...) |
| `Types.MethodNameInjective` | dist/index.d.ts:5 | distinct payment methods have distinct wire names |
| `JsBuiltins.Truthy` | src/intent.ts:66-69 | an optional string is truthy when present and non-empty |
| `JsBuiltins.StartsWith` | src/utils.ts:73 | `s.startsWith(p)` exactly when `p` is no longer than `s` and agrees with it position by position; then `s` is `p` followed by the rest |
| `JsBuiltins.Slice` | src/utils.ts:94-98 | `slice(i, j)` is `s[i..j]` when the bounds are in range, and never longer than `s` |
| `JsBuiltins.SliceAfterPrefix` | src/utils.ts:94-96 | slicing `p + s` at offsets shifted by the length of `p` is slicing `s` |
| `JsBuiltins.DigitsOnly` | src/utils.ts:51 | `replace(/\D/g, '')` keeps only digits, is no longer than the input, and leaves an all-digit string unchanged |
| `JsBuiltins.DigitsOnlyAppend` | src/utils.ts:51 | stripping non-digits distributes over concatenation |
| `JsBuiltins.TrimStart` | src/utils.ts:155 | the result is a suffix of the input after an all-whitespace prefix, and does not start with whitespace |
| `JsBuiltins.TrimEnd` | src/utils.ts:155 | the result is a prefix of the input before an all-whitespace suffix, and does not end with whitespace |
| `JsBuiltins.Trim` | src/utils.ts:155 | `trim()` is no longer than its input and has no whitespace at either end |
| `JsBuiltins.ToUpperCase` | src/utils.ts:59 | `toUpperCase()` leaves no lower-case ASCII letter, and each character becomes one to three characters |
| `JsBuiltins.ToUpperCaseAppend` | src/utils.ts:59 | upper-casing distributes over concatenation |
| `JsBuiltins.ToUpperCaseIdempotent` | src/utils.ts:59 | upper-casing twice is upper-casing once, so a table lookup on an upper-cased key ignores case |
| `JsBuiltins.ToUpperCaseOfUpper` | src/utils.ts:59 | a string of capitals and digits is its own upper case |
| `JsBuiltins.HexValue` | src/utils.ts:168-170 | the value of a hexadecimal digit string is below 16 to the power of its length |
| `JsBuiltins.StripSign` | src/utils.ts:168-170 | one leading `+` or `-` is removed, and nothing else changes |
| `JsBuiltins.StripHexPrefix` | src/utils.ts:168-170 | one leading `0x` or `0X` is removed, and nothing else changes |
| `JsBuiltins.HexDigitPrefix` | src/utils.ts:168-170 | the longest prefix made of hexadecimal digits |
| `JsBuiltins.ParseIntHex` | src/utils.ts:168-170 | `parseInt(s, 16)`: a number is produced only from a non-empty input, and its magnitude is below 16 to the power of the input's length |
| `JsBuiltins.ParseIntHexPair` | src/utils.ts:168-170 | two hexadecimal digits parse to `16 * hi + lo` |
| `JsBuiltins.ParseIntHexPlain` | src/utils.ts:168-170 | with no leading space, sign or `0x` to skip, `parseInt(s, 16)` is the value of the leading hexadecimal digits, or NaN when there are none |
| `JsBuiltins.ParseIntHexBarePrefix` | src/utils.ts:168-170 | `0x` with nothing after it parses to NaN |
| `JsBuiltins.ParseIntHexOneDigit` | src/utils.ts:168-170 | a hexadecimal digit followed by a non-digit (that does not make `0x`) parses to that digit's value |
| `JsBuiltins.ParseIntHexJunk` | src/utils.ts:168-170 | a string starting with a character that is no white space, sign or hexadecimal digit parses to NaN |
| `JsBuiltins.ParseIntHexTwoChars` | src/utils.ts:168-170 | a two-character slice parses exactly when it is a hexadecimal digit that is not the `0` of a `0x` prefix, or whitespace or a sign followed by a hexadecimal digit; any parsed value lies in -15..255 |
| `State.InitialState` | src/state.ts:32-40 | the initial state is idle with all four slots null |
| `State.Reduce` | src/state.ts:45-67 | every action leads to its table status from any status (an unrecognised one keeps the status), and every slot the action does not write is unchanged |
| `State.StartClearsError` | src/state.ts:48 | INIT_START and PROCESS_START set loading or processing, null the error, and change nothing else |
| `State.InitSuccessStoresIntent` | src/state.ts:50 | INIT_SUCCESS sets ready and the intent, and leaves the selected method as it was |
| `State.ErrorsFail` | src/state.ts:52 | INIT_ERROR and PROCESS_ERROR both set failed and the error, and change nothing else |
| `State.SelectAndSucceed` | src/state.ts:54-58 | SELECT_METHOD and PROCESS_SUCCESS set their status and their one slot only |
| `State.ResetKeepsIntent` | src/state.ts:62 | RESET gives ready with only the prior intent kept, and is idempotent |
| `State.CloseOnlyCloses` | src/state.ts:64 | CLOSE sets closed, changes nothing else, and is idempotent |
| `State.UnknownIsIdentity` | src/state.ts:65-66 | an unrecognised action returns the state unchanged |
| `State.NoGuards` | src/state.ts:46-64 | a recognised action's resulting status does not depend on the status it is applied in |
| `State.ResetAfterSuccess` | src/state.ts:62 | after a successful payment, RESET keeps only the intent |
| `Intent.BuildIdempotencyPayload` | src/intent.ts:61-84 | amount and currency are copied; each optional field on its own is copied when truthy and otherwise becomes `''`, `[]` or `{}`; the chosen method becomes its non-empty wire name, or `''`; the caller's public key wins over the configuration's; `reference` is present iff the configured one is non-empty |
| `Intent.PayloadDefaults` | src/intent.ts:63-77 | with every optional field missing, the payload is the all-default record |
| `Intent.PayloadSeesMethod` | src/intent.ts:73 | options that differ only in the chosen method give different payloads |
| `Intent.PayloadKeepsMethodOrder` | src/intent.ts:70 | two orders of the same payment methods give different payloads |
| `Intent.IdempotencyKeyFor` | src/intent.ts:93-94 | the key is the configured one when non-empty, otherwise the hash of the payload |
| `Intent.DerivedKeyDeterministic` | src/intent.ts:93-94 | without a configured key, equal payloads give equal keys |
| `Intent.Spread` | src/intent.ts:52-56 | a property the update mentions takes the update's value (`undefined` included); any other keeps the existing value |
| `Intent.LiveEntry` | src/intent.ts:42-46 | an entry is found exactly when it is present and `now < expiresAt`, and it is the stored entry |
| `Intent.Merge` | src/intent.ts:52-56 | each field the update mentions takes the update's value, each other field comes from the live existing entry (or is absent), and the expiry is now + TTL |
| `Intent.Live` | src/intent.ts:29-35 | after a prune, exactly the entries with `expiresAt > now` remain, untouched |
| `Intent.Store` | src/intent.ts:49-59 | a write puts the merged entry, expiring at now + TTL, under its key and leaves every other key as it was |
| `Intent.PruneIdempotent` | src/intent.ts:29-35 | pruning twice at the same time is pruning once |
| `Intent.LookupIgnoresPrune` | src/intent.ts:103-106 | a lookup finds the same entry with or without a prune before it |
| `Intent.ExpiresAfterTtl` | src/intent.ts:10 | an entry written at `t` is live exactly before `t + 600000` |
| `Intent.ExpiredEntryForgotten` | src/intent.ts:51-56 | an expired entry contributes nothing to a write, so a stale reference is not brought back |
| `Intent.ResponseClearsPromise` | src/intent.ts:115-120 | after cacheIntentResponse the live entry has the response and no promise, and keeps the live reference |
| `Intent.PromiseKeepsResponse` | src/intent.ts:108-113 | cacheIntentPromise sets the promise and keeps the live entry's response and reference |
| `Intent.ResponseThenPromiseHoldsBoth` | src/intent.ts:108-120 | a response followed within the TTL by a promise leaves an entry holding both |
| `Intent.Resolve` | src/intent.ts:86-101 | the resolver's key is the chosen key; the returned entry is the one stored under it, holding the returned reference and expiring at now + TTL; every other key is as the prune left it |
| `Intent.ChooseReference` | src/intent.ts:96 | the configured reference if non-empty, else the existing entry's if non-empty, else the fresh one; never empty when the fresh one is not |
| `Intent.ResolveChoosesReference` | src/intent.ts:96 | the reference is the configured one if non-empty, else the live cached one if non-empty, else the fresh one; the live entry's promise and response are kept |
| `Intent.ReferenceSticky` | src/intent.ts:93-98 | a second resolution of the same options before the first entry expires returns the same key and the same reference |
| `Intent.IntentCache.constructor` | src/intent.ts:27 | the cache starts empty |
| `Intent.IntentCache.Prune` | src/intent.ts:29-35 | the loop deletes exactly the expired entries: the new map is `Live` of the old one |
| `Intent.IntentCache.GetInternal` | src/intent.ts:37-47 | the lookup returns the live entry; the key is deleted exactly when it has expired, and otherwise the map is unchanged |
| `Intent.IntentCache.SetInternal` | src/intent.ts:49-59 | the new map is `Store` of the old one, and the returned entry is the stored one |
| `Intent.IntentCache.ResolveIdentity` | src/intent.ts:86-101 | the outputs and the new map are those of `Resolve` on the old map |
| `Intent.IntentCache.GetEntry` | src/intent.ts:103-106 | the result is the live entry, and the new map is the pruned old one |
| `Intent.IntentCache.CachePromise` | src/intent.ts:108-113 | the new map is `Store` of a promise update; the entry keeps the live response and reference |
| `Intent.IntentCache.CacheResponse` | src/intent.ts:115-120 | the new map is `Store` of a response update; the entry has no promise and keeps the live reference |
| `Intent.IntentCache.Clear` | src/intent.ts:122-124 | only the given key is removed |
| `Utils.ValidatePhone` | src/utils.ts:49-63 | the digits are tested against the upper-cased country's pattern; a country without a pattern needs at least ten digits |
| `Utils.PhonePatternsCountries` | src/utils.ts:53-57 | patterns exist for `GH`, `NG` and `KE` only, with country codes `233`, `234` and `254` |
| `Utils.Test` | src/utils.ts:54-62 | `pattern.test(digits)`: a match has the pattern's length, plus one for the trunk `0` or plus the country code's length |
| `Utils.GhanaClasses` | src/utils.ts:54 | the part of a Ghanaian number after its prefix is nine digits starting with 2, 3 or 5 |
| `Utils.GhanaTest` | src/utils.ts:54 | the Ghana pattern matches exactly `233`, `0` or nothing, then 2, 3 or 5, then eight digits |
| `Utils.GhanaPhone` | src/utils.ts:49-62 | a Ghanaian number is valid exactly when its digits have that shape |
| `Utils.ValidatePhoneIgnoresCase` | src/utils.ts:59 | validation is the same for a country code and its upper case |
| `Utils.ValidatePhoneOnlyDigits` | src/utils.ts:51 | only the digits of the number matter |
| `Utils.Grouped` | src/utils.ts:74-78 | `ddd ddd dddd`: twelve characters, spaces at 3 and 7, the three groups of the local number in order |
| `Utils.GroupedDigits` | src/utils.ts:74-78 | grouping inserts no digits: the digits of the grouped number are those of the local number |
| `Utils.GhanaLocal` | src/utils.ts:73-79 | a local form exists exactly for twelve digits starting `233` or ten starting `0`; it is `0` followed by the last nine digits |
| `Utils.FormatPhone` | src/utils.ts:68-83 | the input is returned unchanged unless the country is exactly `GH` and the digits have a local form; then the result is twelve characters with spaces at 3 and 7 (its digits are fixed by `FormatPhoneDigits`) |
| `Utils.FormatPhoneDigits` | src/utils.ts:73-79 | the digits of a formatted number are its `0`-prefixed local number |
| `Utils.FormatPhoneIdempotent` | src/utils.ts:68-83 | formatting twice is formatting once |
| `Utils.FormatPhoneKeepsValidity` | src/utils.ts:68-83 | formatting does not change whether a Ghanaian number is valid |
| `Utils.NetworkPrefix` | src/utils.ts:92-99 | the two digits after `233`, else the two after a leading `0`, else the first two; never more than two characters, and exactly two precisely when the digits reach the end of that slice (five digits after `233`, three after a leading `0`, otherwise two) |
| `Utils.DetectNetwork` | src/utils.ts:88-111 | the network is MTN, Telecel or AirtelTigo exactly when the prefix is in that network's list |
| `Utils.PrefixListsDisjoint` | src/utils.ts:102-104 | no prefix is in two lists |
| `Utils.NetworkIgnoresCountryCode` | src/utils.ts:93-96 | `0XY...` and `233XY...` are on the same network |
| `Utils.PrefixIgnoresCountryCode` | src/utils.ts:93-96 | the prefix slice of `0` followed by some digits equals that of `233` followed by the same digits |
| `Utils.ShortNumberNoNetwork` | src/utils.ts:93-110 | a number too short for a two-digit prefix slice is on no network, since every listed prefix has two digits |
| `Utils.FormatPhoneKeepsNetwork` | src/utils.ts:68-111 | formatting a number does not change its network |
| `Utils.Normalize` | src/utils.ts:160-162 | only a four-character string is expanded |
| `Utils.ContrastOfHex` | src/utils.ts:156-177 | a foreground is produced only for a `#` colour of expanded length 7, and it is `#0b1120` or `#ffffff` |
| `Utils.GetContrastingColor` | src/utils.ts:154-178 | null unless the trimmed colour starts with `#` and expands to length 7; any result is one of the two foregrounds |
| `Utils.Brightness` | src/utils.ts:176 | for components in 0..255 the weighted sum lies in 0..255000, and a grey of level `x` gives `1000x` |
| `Utils.ContrastOfSixDigits` | src/utils.ts:168-177 | for `#rrggbb` in hexadecimal digits, the result is `#0b1120` iff `299r + 587g + 114b >= 140000`, else `#ffffff` |
| `Utils.ContrastOfHexColor` | src/utils.ts:154-178 | the same for any input that trims to `#rrggbb` |
| `Utils.ContrastOfNormalized` | src/utils.ts:160-177 | the result depends only on the expanded colour |
| `Utils.TrimHexColor` | src/utils.ts:155 | a colour starting with `#` and ending in a hexadecimal digit is its own trim |
| `Utils.ContrastOfShorthand` | src/utils.ts:160-162 | `#abc` is treated as `#aabbcc` |
| `Utils.ShorthandAgrees` | src/utils.ts:154-178 | `#abc` and `#aabbcc` get the same foreground |
| `Utils.IfTruthy` | src/utils.ts:119-148 | a theme field yields a value exactly when it is a non-empty string |
| `Utils.VariableOf` | src/utils.ts:120-148 | a recognised name is the name of the property it denotes |
| `Utils.VariableNamesDistinct` | src/utils.ts:120-148 | each property's name leads back to it, so the ten CSS names are distinct |
| `Utils.ThemeVariable` | src/utils.ts:119-148 | the value each CSS property gets from a theme: the truthy field, the three radii from `borderRadius`, and the foreground only with a primary colour (explicit, else the computed contrast) |
| `Utils.Position` | src/utils.ts:119-149 | the ten assignments come in a fixed order |
| `Utils.AgreesAfterSet` | src/utils.ts:119-149 | assigning a set property extends the agreement with the reference |
| `Utils.AgreesAfterSkip` | src/utils.ts:119-149 | skipping an unset property extends the agreement with the reference |
| `Utils.SetIfTruthy` | src/utils.ts:130-149 | one `if (field) variables[name] = field` step keeps the dictionary in agreement with the reference |
| `Utils.CreateThemeVariables` | src/utils.ts:116-152 | the dictionary holds a property exactly when the theme gives it a value, holds that value, and holds no other key |
| `Utils.ThemeValuesNonEmpty` | src/utils.ts:119-148 | every emitted value is non-empty |
| `Utils.ThemeForeground` | src/utils.ts:119-129 | the foreground appears only with a primary colour; an explicit foreground beats the computed contrast, which is used otherwise |
| `Utils.ThemeRadii` | src/utils.ts:142-146 | the three radius properties are set together, to the same value, exactly when `borderRadius` is truthy |
| `Utils.ClassText` | src/utils.ts:184 | a truthy string argument is written as itself and `true` as `"true"`; never empty |
| `Utils.TruthyClassesOne` | src/utils.ts:184 | one argument is kept, as its text, exactly when it is truthy |
| `Utils.TruthyClassesOfStrs` | src/utils.ts:184 | non-empty class strings all pass `filter(Boolean)`, unchanged and in order |
| `Utils.CnOfStrs` | src/utils.ts:183-185 | `cn` of non-empty class strings is those strings joined by single spaces |
| `Utils.CnSplitStrs` | src/utils.ts:183-185 | splitting `cn` of one or more non-empty, space-free class strings on spaces gives back exactly those strings |
| `Utils.TruthyClasses` | src/utils.ts:184 | `filter(Boolean)` keeps non-empty strings, and is empty iff no argument is truthy |
| `Utils.Cn` | src/utils.ts:183-185 | the result is `""` iff no argument is truthy |
| `Utils.Join` | src/utils.ts:184 | `join` of no words is `""`, of one word is that word, and otherwise starts with the first word |
| `Utils.TruthyClassesAppend` | src/utils.ts:184 | filtering distributes over concatenation |
| `Utils.JoinAppend` | src/utils.ts:184 | joining two lists of non-empty words is joining the two results with one space |
| `Utils.CnAppend` | src/utils.ts:183-185 | `cn(a..., b...)` joins `cn(a...)` and `cn(b...)` with one space |
| `Utils.Split` | src/utils.ts:184 | splitting on spaces gives at least one part |
| `Utils.SplitAfterWord` | src/utils.ts:184 | a space-free word in front of a string extends its first part |
| `Utils.SplitJoin` | src/utils.ts:184 | splitting on spaces undoes joining space-free words with spaces |
| `Utils.CnSplit` | src/utils.ts:183-185 | when some argument is truthy and no string argument holds a space, splitting `cn`'s result on spaces gives back the list `filter(Boolean)` keeps |
| `Utils.TruthyClassesNoSpace` | src/utils.ts:184 | filtering keeps space-free class strings space-free |
| `Utils.DetectCountryFromCurrency` | src/utils.ts:190-206 | the table's country for the upper-cased code, `GH` for any other code; the result is always one of the table's countries |
| `Utils.DetectCountryIgnoresCase` | src/utils.ts:205 | the lookup ignores case |
| `Utils.LowerCaseCurrency` | src/utils.ts:191-205 | `usd` maps to `US` and `ngn` to `NG` |

## Left out

- `formatAmount` (src/utils.ts:11-35) is not modelled. It uses
  `Intl.NumberFormat`, floating-point division and `toFixed`.
- `generateReference` (src/utils.ts:40-44) is not modelled. It reads the
  clock and `Math.random`. The resolver takes the fresh reference it would
  produce as a parameter.
- `generateIdempotencyKey` lives in `src/api/client.ts`, which is not part of
  this model. It is the cache's `keyOf` function, fixed when the cache is
  built. Nothing is claimed about it beyond its being a function of the
  payload.
- Clock reads: `Date.now()` becomes an explicit `now` parameter, and the
  model uses one `now` for a whole call. In the source,
  `resolveIntentIdentity` reads the clock up to four times: in the prune
  (src/intent.ts:29), in the lookup (src/intent.ts:42, from line 95), and
  in the write (src/intent.ts:50, and src/intent.ts:42 again from line 51).
  Line 42 is reached only when the key is present (src/intent.ts:39-40).
  `generateReference` reads the clock once more (src/utils.ts:41), only
  when no reference was found (src/intent.ts:96). On a first call with an
  empty cache, the reads are those of lines 29, 41 and 50.
  The model cannot show what happens when an entry expires between two of
  these reads. For example, if it expires between the read for line 95 and
  the read for line 51, its old reference is reused, but the written entry
  loses its promise and response.
- Aliasing: the source returns the stored entry object itself
  (src/intent.ts:46, 57-58, 100), so a caller that mutates it changes the
  cache. The model returns an immutable copy of the entry.
- `Intent.DerivedKeyDeterministic`: `metadata` and `customFields` are finite
  maps, so two configurations that differ only in the insertion order of
  those objects' keys give equal payloads and the same derived key. The
  source hashes the objects in `src/api/client.ts`, which is not part of this
  model, so the model assumes that hash ignores key order.
- Promises and `PaymentIntentResponse` are the opaque type parameters `P`
  and `R` of the cache. The payment intent, error and result of the reducer
  are the opaque type parameters `I`, `E` and `R`.
- The prune loop deletes in an arbitrary order. JavaScript visits a `Map` in
  insertion order. The resulting map is the same either way.
- Configuration `metadata` and `customFields` values are strings here. In
  the source they are `Record<string, unknown>`, and they take part only in
  the payload.
- A JavaScript number is modelled as an unbounded integer. This covers
  `amount`, `expiresAt` and the brightness sum. Floating-point rounding and
  negative zero are not modelled. For integers,
  `(r * 299 + g * 587 + b * 114) / 1000 >= 140` holds exactly when the sum is
  at least 140000, and the model uses that form.
- Strings are sequences of Unicode code points. JavaScript indexes UTF-16
  code units, so lengths and indices differ for characters outside the Basic
  Multilingual Plane.
- `JsBuiltins.ToUpperCase` maps ASCII letters, plus the characters whose
  upper case is ASCII (ß, ı, ſ and the Latin ligatures U+FB00–U+FB06). Every
  other character is kept as is. The full Unicode case mapping is not
  modelled.
- The default argument `country = 'GH'` of `validatePhone` and
  `formatPhone`: callers pass the country explicitly.
- `Utils.GhanaPhone`: the exact valid-number characterisation is proved for
  Ghana only. The Nigerian and Kenyan patterns are modelled, and
  `Utils.ValidatePhone` states that they are applied, but they have no
  lemma of their own.
- The source looks codes up in object literals. Any prototype property of
  such an object is lower case or mixed case, so no upper-cased key can hit
  one. The model's lookups are finite maps.
- The `dist/` bundle, the API client, `src/index.ts` (re-exports only) and
  `tsup.config.ts` (build configuration) are not modelled.
