# Handcrafted Haven — a verified model of its core logic

Handcrafted Haven is an online marketplace for hand-made goods. Sellers are
called artisans. This project models four pieces of its logic in Dafny and
proves what each of them promises:

- **Utilities** (`utils.dfy`, module `Utils`), from `src/lib/utils.ts`:
  - the pagination arithmetic behind every listing;
  - the slug generator that turns a product name into a URL segment;
  - text truncation;
  - the discount calculator;
  - the e-mail shape check.
- **The client cart** (`cart_context.dfy`, module `CartContext`), from
  `src/context/CartContext.tsx`. A list of cart entries sits in a state cell.
  Four operations replace it: add, set quantity, remove and clear. The count
  shown in the header is derived from the list. The class `Cart` holds the
  cell. Its methods are specified by pure functions that compute each new
  list. The two invariants are that ids are unique and that every quantity
  is at least 1.
- **The catalogue queries** (`catalog.dfy`, module `Catalog`), from
  `src/lib/data.ts`.
  - `getProducts` builds a list of WHERE conditions from an optional-field
    filter record. It picks an ORDER BY from a sort key and computes LIMIT
    and OFFSET from the page. It then runs a row query and a count query.
  - `getProductBySlug` finds one active product and attaches its images and
    variants.
  - Conditions and orderings are datatypes, not SQL text. The database is an
    in-memory snapshot of the `products`, `product_images` and
    `product_variants` tables:
    - a row is selected iff it satisfies every condition;
    - ORDER BY yields a sorted permutation (`Sequences.SortBy`);
    - LIMIT/OFFSET cut out a window (`Sequences.Window`);
    - a negative LIMIT or OFFSET is rejected, as PostgreSQL does.
- **Authentication settings** (`auth_config.dfy`, module `AuthConfig`), from
  `auth.config.ts`:
  - the route guard `authorized`, which returns allow, deny or redirect;
  - the `jwt` and `session` callbacks, which copy the role and the e-mail
    verification flag from user to token to session (classes mutated in
    place);
  - the 30-day session lifetime.

`wrappers.dfy` holds an `Option` type. `sequences.dfy` holds generic
sequence operations: filter, insertion sort, window and lexicographic order.
Those operations stand for what the database does with a result set.

JavaScript semantics that the model spells out:

- `\s` and `String.prototype.trim` use the full ECMAScript WhiteSpace +
  LineTerminator set.
- `\w` is `[A-Za-z0-9_]`.
- `Math.round(x)` is `floor(x + 0.5)`.
- A `maxDiscount` of `0` is falsy.
- Id filters apply only when they are non-empty strings. Price and featured
  filters apply whenever they are defined, so `0` and `false` still filter.
- `substring` clamps a negative end to 0.

## Model

| member | source | states |
|---|---|---|
| Utils.CeilDiv | src/lib/utils.ts:93 | `Math.ceil(n / d)` for `d ≥ 1`: the result k satisfies (k−1)·d < n ≤ k·d |
| Utils.GetPaginationInfo | src/lib/utils.ts:88-105 | page, perPage and totalCount are echoed; totalPages is the least page count that covers totalCount (0 iff totalCount is 0); hasNextPage iff page < totalPages; hasPreviousPage iff page > 1 |
| Utils.PageOfRow | src/lib/data.ts:71 | the page holding row i: at least 1, with (page − 1)·perPage ≤ i < page·perPage |
| Utils.RowOnSomePage | src/lib/utils.ts:93 | the page holding any row index below totalCount is at most totalPages |
| Utils.Trim | src/lib/utils.ts:39 | the result is the slice of the input left after removing the maximal white-space runs at both ends; it starts and ends with a non-white-space character |
| Utils.ToLowerCase | src/lib/utils.ts:38 | same length; each character is lower-cased (ASCII letters only) |
| Utils.RemoveDisallowed | src/lib/utils.ts:40 | every character kept is a word character, white space or '-' taken from the input |
| Utils.RemoveDisallowedConcat | src/lib/utils.ts:40 | removal works character by character: it distributes over concatenation |
| Utils.RemoveDisallowedAround | src/lib/utils.ts:40 | a character of [\w\s-] survives in its place and any other character is removed, so the result is exactly the allowed characters of the input in order |
| Utils.CollapseSeparators | src/lib/utils.ts:41 | no two '-' in a row; every other character is a non-separator from the input; a leading non-separator survives in place |
| Utils.CollapseConcat | src/lib/utils.ts:41 | collapsing distributes over a concatenation whose left part is empty or ends in a non-separator |
| Utils.CollapseRun | src/lib/utils.ts:41 | a non-empty run of separators followed by a non-separator or the end becomes exactly one '-' |
| Utils.CollapseSplitsAtRun | src/lib/utils.ts:41 | between two pieces that do not continue it, a maximal separator run is replaced by a single '-': collapse(x + run + y) = collapse(x) + "-" + collapse(y) |
| Utils.StripEdgeHyphens | src/lib/utils.ts:42 | the result is a contiguous slice of the input with only '-' before and after it and no '-' at either end (`IsHyphenStripOf`); no new characters; keeps "no double hyphen" |
| Utils.GenerateSlug | src/lib/utils.ts:36-43 | the slug contains only [a-z0-9-], never "--", and no '-' at either end |
| Utils.SlugIsFixedPoint | src/lib/utils.ts:36-43 | a string of that shape is left unchanged by generateSlug |
| Utils.GenerateSlugIdempotent | src/lib/utils.ts:36-43 | generateSlug(generateSlug(s)) == generateSlug(s) |
| Utils.GenerateSlugKeepsLettersAndDigits | src/lib/utils.ts:36-43 | the slug holds exactly the letters and digits of the lower-cased text, in order |
| Utils.TruncateText | src/lib/utils.ts:131-134 | text that fits is returned unchanged; otherwise the result is the trim of the first max(maxLength, 0) characters followed by "...", so at most max(maxLength, 0) + 3 long and ending in "..." (a negative maxLength gives just "...") |
| Utils.RoundToCents | src/lib/utils.ts:74 | `Math.round(x * 100) / 100`: a whole number of hundredths within half a cent of x (halves round up) |
| Utils.RoundToCentsMonotone | src/lib/utils.ts:74 | rounding to cents preserves ≤ |
| Utils.RoundToCentsKeepsCents | src/lib/utils.ts:74 | an amount already in whole cents is unchanged by rounding |
| Utils.CalculateDiscount | src/lib/utils.ts:57-75 | fixed amount: round(min(value, price)), never above a whole-cents price; percentage: round(price·value/100), capped at maxDiscount only when it is present and non-zero, and then never above a whole-cents cap; always whole cents |
| Utils.IsValidEmail | src/lib/utils.ts:80-83 | an accepted address is at least five characters long and neither starts nor ends with white space or '@' |
| Utils.ValidEmailFromParts | src/lib/utils.ts:80-83 | a + "@" + b + "." + c is accepted whenever a, b, c are non-empty and free of white space and '@' |
| Utils.EmailParts | src/lib/utils.ts:80-83 | conversely every accepted address splits as a + "@" + b + "." + c with three such parts |
| Utils.ValidEmailShape | src/lib/utils.ts:80-83 | an accepted address has exactly one '@' and no white space |
| CartContext.Find | src/context/CartContext.tsx:53 | finds an entry iff some entry has the id, and what it finds is the first entry with that id |
| CartContext.TotalQuantity | src/context/CartContext.tsx:49 | the sum of quantities; with positive quantities it is at least the number of entries |
| CartContext.Incremented | src/context/CartContext.tsx:55-57 | same length; the matching entries get quantity + 1, all others are untouched |
| CartContext.WithQuantity | src/context/CartContext.tsx:68-70 | same length; the matching entries get the new quantity, all others are untouched |
| CartContext.Without | src/context/CartContext.tsx:73-75 | keeps only entries of the list whose id differs |
| CartContext.WithoutKeepsOthers | src/context/CartContext.tsx:73-75 | every entry with another id survives removal |
| CartContext.WithoutConcat | src/context/CartContext.tsx:73-75 | removal distributes over concatenation, so survivors keep their order |
| CartContext.WithoutAbsentIsNoOp | src/context/CartContext.tsx:73-75 | removing an absent id changes nothing |
| CartContext.WithoutRemovesOneEntry | src/context/CartContext.tsx:73-75 | with unique ids, removing entry k's id yields the list without entry k |
| CartContext.WithoutKeepsWellFormed | src/context/CartContext.tsx:73-75 | removal preserves unique ids and positive quantities |
| CartContext.FirstEntry | src/context/CartContext.tsx:59 | the appended entry carries the product's id, name, price and category and quantity 1 |
| CartContext.Added | src/context/CartContext.tsx:51-60 | afterwards the product is in the cart; the list grows by one entry exactly when the id was absent; entries with other ids keep their places |
| CartContext.AddNewProductAppends | src/context/CartContext.tsx:51-60 | a product not in the cart is appended with quantity 1 after the unchanged earlier entries |
| CartContext.AddExistingProductIncrements | src/context/CartContext.tsx:53-58 | a product in the cart raises only its own entry's quantity by 1; length, name, price and category are kept |
| CartContext.AddKeepsWellFormed | src/context/CartContext.tsx:51-60 | adding preserves unique ids and positive quantities |
| CartContext.AddRaisesCountByOne | src/context/CartContext.tsx:49-60 | adding raises the cart count by exactly 1 |
| CartContext.UniqueIdOccursOnce | src/context/CartContext.tsx:53-58 | with unique ids an id present occurs exactly once |
| CartContext.WithQuantityAbsentIsNoOp | src/context/CartContext.tsx:68-70 | setting the quantity of an absent id changes nothing |
| CartContext.WithQuantityKeepsWellFormed | src/context/CartContext.tsx:68-70 | setting a quantity ≥ 1 preserves unique ids and positive quantities |
| CartContext.Cart.constructor | src/context/CartContext.tsx:26 | the cart starts empty and valid |
| CartContext.Cart.CartCount | src/context/CartContext.tsx:49 | for a valid cart, the count is at least the number of entries |
| CartContext.Cart.AddToCart | src/context/CartContext.tsx:51-61 | the new list is the added list; validity is kept and the count rises by 1 |
| CartContext.Cart.UpdateQuantity | src/context/CartContext.tsx:63-71 | a quantity below 1 acts as removal; otherwise only the matching entries are set; validity is kept |
| CartContext.Cart.RemoveFromCart | src/context/CartContext.tsx:73-75 | the new list is the filtered list; validity is kept |
| CartContext.Cart.ClearCart | src/context/CartContext.tsx:77-79 | the list becomes empty and the count 0 |
| Catalog.BuildWhereConditions | src/lib/data.ts:72-78 | `is_active` comes first, then one condition per supplied field in the fixed order, so the length is 1 + the number supplied; a condition is present iff it is `is_active` or contributed by a supplied field; a product satisfies them all iff it is active and matches the filters |
| Catalog.ConditionsMeanFilters | src/lib/data.ts:72-78 | the conditions present select exactly the active products that match the filters |
| Catalog.OrderByFor | src/lib/data.ts:80-83 | the price column iff price_low or price_high; ascending iff oldest or price_low; newest, rating and popularity use created_at DESC |
| Catalog.BuildOrderBy | src/lib/data.ts:80-83 | the if-chain yields the sort table's ORDER BY |
| Catalog.SortedFollowsSortKey | src/lib/data.ts:80-83 | rows sorted under that ORDER BY are in the order the sort key names |
| Catalog.Select | src/lib/data.ts:85-99 | the WHERE: a row is selected iff it is in the table and satisfies every condition; the result is a sub-multiset of the table |
| Catalog.Ordered | src/lib/data.ts:99 | ORDER BY: the rows as a permutation sorted by the ORDER BY's column and direction |
| Catalog.ExecuteRows | src/lib/data.ts:99 | rejected iff LIMIT or OFFSET is negative; otherwise sorted by the ORDER BY and drawn from the rows that satisfy the WHERE |
| Catalog.ExecuteCount | src/lib/data.ts:103-105 | `COUNT(*)`: at most the table's size, and 0 exactly when no row satisfies the WHERE |
| Catalog.Listing | src/lib/data.ts:85 | a product is listed iff it is in the table, active and matching the filters |
| Catalog.SortedListing | src/lib/data.ts:80-85 | the listed products as a permutation in the sort key's order |
| Catalog.SelectIsListing | src/lib/data.ts:85 | the WHERE built from the filters selects exactly the listing |
| Catalog.PageOffset | src/lib/data.ts:71 | the offset (page − 1)·perPage is non-negative iff page ≥ 1 for a positive page size, and iff page ≤ 1 for a negative one |
| Catalog.RowQueryReturnsPage | src/lib/data.ts:85-105 | the row and count queries use the same predicate: rows are the window of the sorted listing, count is the listing's size, and the page is never longer than the count |
| Catalog.GetProducts | src/lib/data.ts:64-121 | fails with "Failed to fetch products." iff page < 1 or perPage < 0 (a negative OFFSET or LIMIT, which the database rejects); the model's database accepts every filter value; otherwise data is the window at offset (page−1)·perPage of length perPage of the sorted listing, drawn from the listing, in the sort key's order and no longer than total_count; meta holds current_page, per_page, total_count and total_pages from getPaginationInfo over the listing |
| Catalog.EveryRowOnOnePage | src/lib/data.ts:71-115 | row i of the sorted listing appears on the page PageOfRow names, at position i minus that page's offset, and that page is between 1 and total_pages |
| Catalog.MinAboveMaxListsNothing | src/lib/data.ts:76-77 | a min_price above max_price lists nothing |
| Catalog.SlugQuery | src/lib/data.ts:138 | at most one row; one exactly when an active product has the slug, and it is such a product |
| Catalog.ImageQuery | src/lib/data.ts:143-145 | exactly the product's images (as a multiset), ordered by sort_order |
| Catalog.VariantQuery | src/lib/data.ts:147-149 | exactly the product's variants (as a multiset), ordered by name |
| Catalog.GetProductBySlug | src/lib/data.ts:123-156 | absent iff no active product has the slug; otherwise such a product together with exactly its images by sort_order and exactly its variants by name |
| Sequences.Keep | src/lib/data.ts:85 | a WHERE filter: membership iff in the input and passing, and a sub-multiset |
| Sequences.SortBy | src/lib/data.ts:99 | ORDER BY: a sorted permutation |
| Sequences.Window | src/lib/data.ts:99 | LIMIT/OFFSET: min(limit, rows − offset) rows, element i being row offset + i |
| Sequences.LexLeTotal | src/lib/data.ts:148 | `ORDER BY name` compares any two names |
| Sequences.LexLeTransitive | src/lib/data.ts:148 | `ORDER BY name` is transitive |
| AuthConfig.StartsWith | auth.config.ts:46-50 | `startsWith`: the prefix fits and matches the path character by character |
| AuthConfig.HomeOf | auth.config.ts:64-70 | the redirect home is a dashboard path exactly for artisans and a member page for everyone else |
| AuthConfig.Authorized | auth.config.ts:44-73 | an artisan-only dashboard; account and checkout for anyone signed in; deny iff one of those two rules refuses; redirect iff a signed-in visitor is on login or register and no earlier prefix matched, to /dashboard for an artisan, else /account; everything else allowed |
| AuthConfig.PrefixesExclusive | auth.config.ts:46-50 | no path starts with two of the five guarded prefixes |
| AuthConfig.RedirectTargetAdmits | auth.config.ts:64-70 | the redirect target allows the redirected visitor, so redirects never loop |
| AuthConfig.GuestDecisions | auth.config.ts:52-72 | guests are never redirected and are denied exactly on dashboard, account and checkout |
| AuthConfig.SigningInNeverDenies | auth.config.ts:52-72 | a page open to guests stays open after signing in, or becomes a redirect home |
| AuthConfig.ArtisanSeesEverything | auth.config.ts:52-72 | no page that any visitor may open is denied to an artisan |
| AuthConfig.SubpathsShareDecision | auth.config.ts:45-56 | matching is by prefix: sub-paths of a guarded path get the same decision |
| AuthConfig.Session.constructor | auth.config.ts:39-42 | a session issued at time t expires at t + maxAge |
| AuthConfig.SessionMaxAgeIsThirtyDays | auth.config.ts:39-42 | maxAge is 2,592,000 seconds, 30 days |
| AuthConfig.Jwt | auth.config.ts:74-81 | with a user, the token's role and email_verified become the user's; without one they are unchanged; the same token is returned and nothing else in it changes |
| AuthConfig.SessionCallback | auth.config.ts:82-89 | with a token, the session user's role and email_verified become the token's; without one they are unchanged; the same session is returned and nothing else changes |
| AuthConfig.SignIn | auth.config.ts:74-89 | jwt then session carries the user's role into the session, so the guard lets exactly artisans onto /dashboard and every signed-in user onto /account |

## Left out

- Numbers are mathematical. Integers are unbounded and money is an exact `real`. IEEE-754 doubles are not modelled: no rounding error in `price * discountValue / 100`, no NaN, no Infinity.
- Utils.GetPaginationInfo: requires perPage ≥ 1. With perPage 0 the source divides by zero and produces Infinity or NaN, which the model does not represent. Fractional pages and page sizes are not modelled either.
- Catalog.GetProducts: requires perPage ≠ 0 for the same reason: with perPage 0 the queries succeed and then getPaginationInfo divides by zero. A NaN page or page size from `parseInt` is not modelled.
- Catalog.GetProducts: the model's database accepts every filter value, where the source has two failure modes it does not capture. First, a `category_id` or `artisan_id` that is not a UUID is rejected by PostgreSQL for the UUID columns, so the source throws "Failed to fetch products." while the model returns a page. Second, a filter value containing a quote is interpolated into the SQL text. It either breaks that text, and the source throws, or turns the WHERE into a different query: `<uuid>' OR 'a'='a` selects every row, inactive products included. The model gives neither outcome.
- Catalog.GetProducts: the model's LIMIT and OFFSET are unbounded integers. PostgreSQL's are 64-bit: a page size such as 99999999999999999999, or page 10^18 with page size 12, raises "bigint out of range". The source then throws "Failed to fetch products." while the model returns Fetched.
- Catalog.Product: the model's rows have no NULL columns. The database schema is not part of this model, and it allows NULL in `is_active`, `is_featured` and `created_at`. On such rows `p.is_active = true` and `p.is_featured = false` are never true, and PostgreSQL puts NULL `created_at` values first under `created_at DESC`; the model's booleans and dates are always definite.
- Utils.ToLowerCase: lower-cases ASCII letters only. Full Unicode `toLowerCase` differs for a slug on two characters. The Kelvin sign U+212A lower-cases to "k". U+0130 lower-cases to "i" followed by U+0307, and `[^\w\s-]` then removes the combining dot, leaving "i". The model drops both characters, where the source keeps a letter. Every other non-ASCII letter is removed by `[^\w\s-]` either way.
- Strings are sequences of code points. JavaScript's UTF-16 code-unit lengths (`text.length` and `substring` in truncateText on astral characters) are not modelled.
- Utils.TruncateText: `maxLength` is an integer. A fractional or NaN maxLength is not modelled.
- Sequences.SortBy: an insertion sort stands for ORDER BY. The contracts of getProducts and getProductBySlug state only that the rows are sorted and are a permutation or sub-multiset; tie order is not promised.
  - Catalog.GetProducts: its `data == Window(SortedListing(..))` clause and Catalog.EveryRowOnOnePage fix one tie order. They therefore assume that the database orders ties the same way in every query, which PostgreSQL does not promise.
- Catalog.Product: `created_at` is a number, not a timestamp string. Only the columns the two queries read are modelled.
- Catalog.ProductFilters: materials, colors, sizes, tags and rating_min are present in the type and ignored by getProducts, as in the source.
- The `json_build_object` joins are not part of this model: category and artisan objects, the approved-review AVG/COUNT aggregate and `COALESCE`. Neither is the SQL text. The interpolation of `category_id` and `artisan_id` into the WHERE string allows SQL injection, and the model does not capture it.
- Catalog.SlugQuery: from several active products with the same slug, the result is one of them; which one is unspecified, as with `LIMIT 1` without ORDER BY.
- Connection and other database errors are not modelled. So is `parseInt` of the count, and the default parameter values of getProducts (page 1, 12 per page, no filters, newest).
- Name ordering of variants is code-point order; database collations are not modelled.
- CartContext: the localStorage load and save effects, JSON parsing and the React provider are not modelled. So are extra fields spread in by `{ ...item }`, and fractional or NaN quantities.
- AuthConfig: the credentials provider's `authorize` is not part of this model (zod validation, bcrypt comparison, database lookup). Neither are the `Response.redirect` URL construction (only the target path is kept), NextAuth's session expiry handling beyond setting `expires` to the issue time plus `maxAge`, the module-level environment checks, and the route matcher of `middleware.ts`.
