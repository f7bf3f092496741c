# AffiliateWP Store Credit: decision rules and ledger table, in Dafny

This project models the core of the AffiliateWP Store Credit add-on. The add-on pays
affiliates in store credit held by a wallet in WooCommerce or in Easy Digital Downloads
(EDD), and it keeps a table of the transactions that changed those balances. The model
covers three source files:

- `includes/functions.php` (module `Integration`, file `integration.dfy`). This is the
  rule that picks the one active wallet backend: WooCommerce first, then EDD, else none.
  It also covers the balance read, which resolves whose balance to show, reads it from the
  active backend, and answers `false` (`Unavailable`) when no backend is active.
- `includes/admin/settings.php` (module `AdminSettings`, file `admin_settings.dfy`). This
  covers the gate that a manual store-credit adjustment passes before the wallet is
  called, and an affiliate's payout method (Cash or Store Credit). It also covers saving
  and deleting the per-affiliate opt-in, the columns spliced into the affiliates and
  referrals tables, the label kind of a ledger row, and the settings-tab rule.
- `includes/class-transactions.php` (module `Ledger`, file `ledger.dfy`). This is the
  class `Transactions`. It names its table and creates the table once, recording the
  schema version. It reads a user's latest 100 rows, newest first, and it holds the
  column defaults. The database is a `Database` object: a map from table name to rows,
  plus the options table.

Two helper modules stand for PHP itself. `PhpValues` (`php_values.dfy`) has `Option` and
string truthiness. `PhpArray` (`php_array.dfy`) treats string-keyed arrays as ordered
entry lists. It gives `array_slice(..., true)`, the union `+` and `$a[$k] = $v`, with
their laws: keys stay unique, other entries keep their order, and a read after a write
sees the write.

External facts are parameters:
- which classes are loaded, and the enabled integrations (`Environment`);
- the affiliate directory and the current affiliate (`Site`, the `affiliates` maps);
- the stored balances;
- affiliate meta (`AffiliateMeta`);
- whether `CREATE TABLE` succeeds (`serverCreates`);
- which payouts and orders still exist;
- the acting user;
- the wallet call's answer (`WalletReply`).

Amounts are whole cents. Times are seconds.

### Behaviour of the code worth knowing

- `adjust_store_credit` returns a bool, not the new balance. The model returns whether
  the wallet was called and with what, plus that bool (`AdjustResult`).
- `adjust_store_credit` rejects `affiliate_id <= 0` before any lookup, and it tests that
  the WooCommerce store-credit class is loaded before it looks up the affiliate.
- That class test is the only integration test of the gate. The plugin loads an
  integration's store-credit class only when that integration is enabled
  (`LoadedOnlyIfEnabled`), so the test amounts to WooCommerce being the active
  integration. `AdjustNeedsActiveWooCommerce` states the consequence: on a site where EDD
  is the active integration, a manual adjustment always fails.
- The history limit is fixed at 100 in the SQL. It is not a parameter.
- The settings tab looks only at the enabled list, not at loaded classes.
  `TabWithoutActiveIntegration` exhibits a tab shown while no integration is active, as
  when store credit is switched off and no integration class is loaded.
- The inline comments of `set_table_name` call the network-wide branch "single-site". The
  model follows the code: the bare name is used when `AFFILIATE_WP_NETWORK_WIDE` is
  defined and truthy, and the prefixed name otherwise.

## Model

| member | source | states |
|---|---|---|
| `Integration.ActiveIntegration` | includes/functions.php:66-88 | the answer is always `'woocommerce'`, `'edd'` or `''` |
| `Integration.WooCommerceHasPriority` | includes/functions.php:70-76 | WooCommerce is chosen whenever its store-credit class is loaded and it is enabled, for every EDD state |
| `Integration.EddChosenIff` | includes/functions.php:77-85 | `'edd'` is chosen iff WooCommerce is not available and the EDD store-credit class, the `EDD_Wallet` class and the `edd` integration are all present |
| `Integration.NoIntegrationIff` | includes/functions.php:70-87 | `''` is returned iff neither backend's conditions hold |
| `Integration.WooCommerceLoadedIffActive` | includes/class-affiliatewp-store-credit.php:218-224 | as store-credit classes load only for enabled integrations, the WooCommerce class is loaded iff WooCommerce is the active integration |
| `Integration.ResolveUserId` | includes/functions.php:21-31 | an explicit `user_id` is the answer; otherwise the answer is the user of some affiliate of the directory, and there is none (`false`) iff the visitor is no affiliate or the chosen affiliate id is not a positive id of the directory |
| `Integration.StoreCreditBalance` | includes/functions.php:18-55 | the result is the unavailable sentinel iff no integration is active; otherwise it is the WooCommerce user-meta balance or the EDD wallet balance of the resolved user, according to the active integration, formatted iff asked; an unknown affiliate (no user) or a user id that is not positive reads 0 |
| `Integration.FormattingKeepsAmount` | includes/functions.php:50-52 | `$formatted` changes only the representation: both reads agree on availability and on the amount |
| `Integration.UnavailableIsNotZero` | includes/functions.php:33-37 | with no active integration the answer differs from a zero balance, raw or formatted |
| `Integration.ExplicitUserIdWins` | includes/functions.php:21-24 | a given `user_id` is read, whatever `affiliate_id` and the current affiliate are |
| `Integration.AffiliateIdBeforeCurrent` | includes/functions.php:26-29 | without `user_id`, a non-empty `affiliate_id` selects that affiliate's user, independent of the current affiliate |
| `Integration.CurrentAffiliateFallback` | includes/functions.php:27-31 | with neither a `user_id` nor a non-empty `affiliate_id`, the current affiliate's user is read, and a visitor who is no affiliate has no user |
| `Integration.NonAffiliateReadsZero` | includes/functions.php:21-52 | a visitor who is no affiliate, asking without arguments, reads balance 0 from an active integration, whatever the directory and the stored balances hold |
| `Ledger.ColumnDefaults` | includes/class-transactions.php:202-216 | defaults: movement `increase`, type `unknown`, from and to 0 (no change), user, actor and reference 0, empty note, id 0, time now |
| `Ledger.ForUser` | includes/class-transactions.php:241 | the `WHERE for_user_id` filter keeps exactly the user's rows, with their multiplicities |
| `Ledger.InsertByTime` | includes/class-transactions.php:241 | one step of `ORDER BY time`: the result holds the input's rows plus exactly the inserted one |
| `Ledger.InsertByTimeKeepsOrder` | includes/class-transactions.php:241 | inserting into a newest-first sequence keeps it newest-first |
| `Ledger.SortNewestFirst` | includes/class-transactions.php:241 | `ORDER BY time DESC` yields a newest-first permutation of its input |
| `Ledger.RecentForUser` | includes/class-transactions.php:236-245 | the query returns at most 100 rows, all the user's, newest first, drawn from the table |
| `Ledger.RecentForUserComplete` | includes/class-transactions.php:241 | a user with at most 100 rows gets every one of them |
| `Ledger.RecentForUserFull` | includes/class-transactions.php:241 | a user with more than 100 rows gets exactly 100 |
| `Ledger.RecentForUserIsNewest` | includes/class-transactions.php:241 | every one of the user's rows left out is no newer than every row returned |
| `Ledger.CreateTableEffect` | includes/class-transactions.php:139-180 | returns iff the table existed or the server created it; an existing table changes nothing; a new table starts empty and its version option is `1.0.0`; a throw changes nothing, so no version is written; other tables and options are untouched |
| `Ledger.CreateTableIdempotent` | includes/class-transactions.php:141-143 | after a create that returned, a second create returns and changes nothing |
| `Ledger.Transactions.constructor` | includes/class-transactions.php:123-130 | the table name is the bare name when network-wide, otherwise the site prefix plus the bare name |
| `Ledger.Transactions.SetTableName` | includes/class-transactions.php:123-130 | prefixes the current name unless `AFFILIATE_WP_NETWORK_WIDE` is defined and true |
| `Ledger.Transactions.Construct` | includes/class-transactions.php:113-116 | names the table, then leaves the database and the outcome exactly as `CreateTableEffect` says |
| `Ledger.Transactions.CreateTable` | includes/class-transactions.php:139-180 | the new database state and the outcome are those of `CreateTableEffect` on the old state |
| `Ledger.Transactions.GetTransactionsForUser` | includes/class-transactions.php:232-250 | at most 100 rows, all the user's, newest first, from the table, namely `RecentForUser` of the table's rows; a missing table (a non-array query result) gives `[]` |
| `AdminSettings.AdjustStoreCredit` | includes/admin/settings.php:624-675 | the wallet is called iff the movement is exactly `increase`/`decrease`, amount > 0, affiliate id > 0, the WooCommerce class is loaded and the affiliate resolves. The call carries the movement, the amount, the affiliate's user, type `manual`, the affiliate id, the method name and the current user. Success iff the call was made and answered a number or exactly `true` |
| `AdminSettings.RejectionIgnoresWallet` | includes/admin/settings.php:630-650 | a rejected request's result is `false` whatever the wallet would have answered |
| `AdminSettings.ThrownWalletCallFails` | includes/admin/settings.php:667-674 | a wallet call that throws yields `false` |
| `AdminSettings.AdjustNeedsActiveWooCommerce` | includes/admin/settings.php:630-650 | on a site that loads classes only for enabled integrations, the wallet is called iff the arguments are valid, WooCommerce is the active integration and the affiliate exists; with any other active integration the adjustment fails |
| `AdminSettings.PayoutMethod` | includes/admin/settings.php:686-710 | the answer is `Cash` or `Store Credit`, and `Store Credit` iff the all-affiliates setting is on or the affiliate's opt-in meta is truthy |
| `AdminSettings.UpdateAffiliate` | includes/admin/settings.php:591-608 | an empty affiliate id returns `false` and changes nothing; no capability changes nothing; otherwise a truthy flag is stored and a falsy or missing one deleted |
| `AdminSettings.SavedOptInDecidesPayoutMethod` | includes/admin/settings.php:601-607 | after saving a flag, that affiliate's payout method (all-affiliates off) is Store Credit iff the flag is truthy, and every other affiliate's is unchanged |
| `AdminSettings.AllAffiliatesOverridesOptIn` | includes/admin/settings.php:690-694 | with the all-affiliates setting on, every affiliate is paid in store credit |
| `AdminSettings.ColumnStoreCredit` | includes/admin/settings.php:209-219 | the result's columns are the table's columns plus `store_credit` and `payout_method`, none lost |
| `AdminSettings.ReferralsColumnStoreCredit` | includes/admin/settings.php:264-273 | the result's columns are the table's columns plus `payout_method`, none lost |
| `AdminSettings.ColumnStoreCreditPlacement` | includes/admin/settings.php:209-219 | on a table lacking both, `store_credit` then `payout_method` come right after the first 6 columns |
| `AdminSettings.ColumnStoreCreditKeepsColumns` | includes/admin/settings.php:211-216 | keys stay unique, the keys are the old ones plus the two added, and every other column keeps its label and relative order |
| `AdminSettings.ReferralsColumnPlacement` | includes/admin/settings.php:264-273 | on a table lacking it, `payout_method` comes right after the first 8 columns |
| `AdminSettings.ReferralsColumnKeepsColumns` | includes/admin/settings.php:266-270 | keys stay unique, only `payout_method` is added, and every other column keeps its label and relative order |
| `AdminSettings.TransactionLabel` | includes/admin/settings.php:398-499 | manual rows, and only they, get a manual label: decrease or increase according to the movement, plain Manual otherwise. Unknown iff the type is none of manual, payout, purchase, refund, renewal |
| `AdminSettings.LabelReportsType` | includes/admin/settings.php:400-497 | every label reports its row's type, and an unrecognised type as `unknown` |
| `AdminSettings.LabelReferences` | includes/admin/settings.php:416-487 | payout and order labels carry the row's reference id and link only when it still exists; a payout row is "deleted" iff its movement is not `increase` |
| `AdminSettings.DefaultRowIsUnknown` | includes/admin/settings.php:489-497 | a row holding only the column defaults is labelled Unknown |
| `AdminSettings.GateRequestLabel` | includes/admin/settings.php:400-409 | a row with the type and movement that the gate sends to the wallet is labelled manual increase or decrease, in the request's direction |
| `AdminSettings.RegisterSettingsTab` | includes/admin/settings.php:529-543 | the tab key is present iff it already was or `woocommerce` or `edd` is enabled; no other key appears |
| `AdminSettings.RegisterSettingsTabEffect` | includes/admin/settings.php:533-542 | with neither enabled the tabs come back unchanged; otherwise `store-credit` reads "Store Credit", a new tab is appended last, keys stay unique, and every other tab keeps its title and order |
| `AdminSettings.ActiveIntegrationShowsTab` | includes/admin/settings.php:531-540 | whenever an integration is active, the store-credit tab is shown |
| `AdminSettings.TabWithoutActiveIntegration` | includes/admin/settings.php:533-538 | the tab is also shown when `woocommerce` is enabled but no store-credit class is loaded |

## Left out

- The add-on bootstrap (`affiliatewp-store-credit.php`, `includes/class-affiliatewp-store-credit.php`) is not part of this model beyond its class-loading rule (`LoadedOnlyIfEnabled`). The rest is requirement checks, hook registration and the singleton.
- The wallet mutation `AffiliateWP_Store_Credit_WooCommerce::adjust_store_credit` and the ledger insert inherited from `Affiliate_WP_DB` are not part of this model. Their classes are not among the modelled files. The wallet's answer is an input (`WalletReply`). Nothing is assumed about how a balance changes or whether a ledger row is appended.
- The AJAX handler, script enqueueing, `register_settings`, the HTML of the edit-affiliate screen and the column-value callbacks are left out. These callbacks only return the balance read or the payout method. All of this is request handling and presentation: nonces, capability checks, `filter_input`, JSON replies, translation and escaping.
- Label text, translations and link URLs are left out; labels are kinds. The payout link's URL hard-codes `payout_id=6` and ignores the reference id. The model carries only whether a link is shown.
- Logging of a thrown wallet exception is left out (I/O).
- Concurrency is left out: the code has no locking.
- Floating point and currency formatting (`floatval`, `affwp_format_amount`, `affwp_currency_filter`) are left out. Amounts are whole cents.
- Integration.StoreCreditBalance: the formatted result carries the amount, not the currency string.
- `get_columns` and `get_sum_columns` are left out. They are SQL format strings for the inherited insert. The SQL text, the charset and the `$wpdb` API are left out too.
- Ledger.RecentForUser: SQL leaves the order of rows with equal `time` unspecified. The model keeps storage order among them, which is one order the database may return.
- Ledger.Transactions.GetTransactionsForUser: a query result that is not an array is modelled only as the result when the table is missing. Other database failures are not distinguished.
- AdminSettings.AdjustStoreCredit: every `is_numeric` value is one `Numeric` reply (an integer, a float, a numeric string). The amount is an integer, not a PHP float. Only an `Exception` thrown by the wallet call is caught and turned into `false` (`Raised`); any other throwable, such as a PHP `Error`, leaves `adjust_store_credit` uncaught and is not modelled.
- AdminSettings.UpdateAffiliate: `$data['affiliate_id']` is an integer, with 0 standing for an empty id. The meta functions' own casting of ids is not modelled.
- Integration.StoredBalance: no user (`false`), a user id that is not positive and a user without stored credit all read as balance 0, which is what `floatval` makes of an empty meta value. How WordPress's `get_user_meta` and EDD Wallet themselves treat a negative id is not part of this model.
- Integration.AffiliateUserId: an affiliate id that is not positive is never found, because AffiliateWP's ids start at 1; how `affwp_get_affiliate()` itself handles such an id is not part of this model.
- Ledger.Transactions.SetTableName: `AFFILIATE_WP_NETWORK_WIDE` is given as its PHP truthiness (None when undefined); which value of which type the constant holds is not modelled.
