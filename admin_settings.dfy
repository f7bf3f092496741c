/**
 * The decisions of the admin screens (includes/admin/settings.php): the gate
 * in front of a manual store-credit adjustment, an affiliate's payout method,
 * the columns added to the affiliates and referrals tables, the label of a
 * ledger row, the settings tab, and saving the per-affiliate opt-in.
 */
module AdminSettings {
  import opened PhpValues
  import opened PhpArray
  import opened Integration
  import opened Ledger

  // ---- adjust_store_credit(): the manual adjustment gate ----

  const Increase: string := "increase"
  const Decrease: string := "decrease"
  /** `__METHOD__` inside `adjust_store_credit()`. */
  const AdjustMethodName: string := "AffiliateWP_Store_Credit_Admin::adjust_store_credit"

  /**
   * The arguments passed to `AffiliateWP_Store_Credit_WooCommerce::adjust_store_credit()`,
   * in their order, named after what is passed: movement, amount (cents), the
   * affiliate's user, the type, the affiliate id, the calling method's name and
   * the acting user. That class is not part of this model.
   */
  datatype WalletRequest = WalletRequest(
    movement: string,
    amount: int,
    userId: int,
    transactionType: string,
    affiliateId: int,
    caller: string,
    byUserId: int)

  /** What the wallet call would hand back. */
  datatype WalletReply =
    | Numeric(value: int)   // any value `is_numeric()` accepts
    | Boolean(b: bool)
    | NonNumeric            // a non-numeric string, null, an array, ...
    | Raised(message: string)   // the call threw an `Exception`, which is caught

  /** Whether the wallet was called and with what, and what the gate returns. */
  datatype AdjustResult = AdjustResult(walletCall: Option<WalletRequest>, updated: bool)

  /**
   * `adjust_store_credit( $affiliate_id, $movement, $amount )`. `reply` is what
   * the wallet call returns if it is made; `currentUserId` is
   * `get_current_user_id()`.
   */
  function AdjustStoreCredit(
    affiliateId: int, movement: string, amount: int,
    env: Environment, affiliates: map<int, Affiliate>, currentUserId: int, reply: WalletReply): (r: AdjustResult)
    ensures r.walletCall.Some? <==>
      (movement == Increase || movement == Decrease) && amount > 0 && affiliateId > 0 &&
      env.wooCommerceStoreCredit && affiliateId in affiliates
    ensures r.walletCall.Some? ==>
      r.walletCall.value.movement == movement && r.walletCall.value.amount == amount &&
      r.walletCall.value.userId == affiliates[affiliateId].userId &&
      r.walletCall.value.transactionType == "manual" &&
      r.walletCall.value.affiliateId == affiliates[affiliateId].affiliateId &&
      r.walletCall.value.caller == AdjustMethodName &&
      r.walletCall.value.byUserId == currentUserId
    ensures r.updated <==> r.walletCall.Some? && (reply.Numeric? || reply == Boolean(true))
  {
    if movement != Increase && movement != Decrease then AdjustResult(None, false)
    else if amount <= 0 then AdjustResult(None, false)
    else if affiliateId <= 0 then AdjustResult(None, false)
    else if !env.wooCommerceStoreCredit then AdjustResult(None, false)
    else if affiliateId !in affiliates then AdjustResult(None, false)
    else
      var affiliate := affiliates[affiliateId];
      var request := WalletRequest(movement, amount, affiliate.userId, "manual",
                                   affiliate.affiliateId, AdjustMethodName, currentUserId);
      match reply
      case Numeric(_) => AdjustResult(Some(request), true)
      case Boolean(b) => AdjustResult(Some(request), b)
      case NonNumeric => AdjustResult(Some(request), false)
      case Raised(_) => AdjustResult(Some(request), false)
  }

  /** A rejected request never reaches the wallet, so the wallet's answer cannot matter. */
  lemma RejectionIgnoresWallet(
    affiliateId: int, movement: string, amount: int,
    env: Environment, affiliates: map<int, Affiliate>, currentUserId: int, reply1: WalletReply, reply2: WalletReply)
    requires AdjustStoreCredit(affiliateId, movement, amount, env, affiliates, currentUserId, reply1).walletCall.None?
    ensures AdjustStoreCredit(affiliateId, movement, amount, env, affiliates, currentUserId, reply1)
         == AdjustStoreCredit(affiliateId, movement, amount, env, affiliates, currentUserId, reply2)
         == AdjustResult(None, false)
  {
  }

  /** A wallet call that throws makes the adjustment report failure. */
  lemma ThrownWalletCallFails(
    affiliateId: int, movement: string, amount: int,
    env: Environment, affiliates: map<int, Affiliate>, currentUserId: int, message: string)
    ensures !AdjustStoreCredit(affiliateId, movement, amount, env, affiliates, currentUserId, Raised(message)).updated
  {
  }

  /**
   * The gate asks whether the WooCommerce store-credit class is loaded. As the
   * plugin loads that class only for an enabled integration, this is the same
   * as WooCommerce being the active integration: a site where EDD is the
   * active integration never gets a manual adjustment through.
   */
  lemma AdjustNeedsActiveWooCommerce(
    affiliateId: int, movement: string, amount: int,
    env: Environment, affiliates: map<int, Affiliate>, currentUserId: int, reply: WalletReply)
    requires LoadedOnlyIfEnabled(env)
    ensures AdjustStoreCredit(affiliateId, movement, amount, env, affiliates, currentUserId, reply).walletCall.Some? <==>
      (movement == Increase || movement == Decrease) && amount > 0 && affiliateId > 0 &&
      ActiveIntegration(env) == WooCommerce && affiliateId in affiliates
    ensures ActiveIntegration(env) != WooCommerce ==>
      !AdjustStoreCredit(affiliateId, movement, amount, env, affiliates, currentUserId, reply).updated
  {
    WooCommerceLoadedIffActive(env);
  }

  // ---- get_payout_method() and update_affiliate(): the per-affiliate opt-in ----

  const Cash: string := "Cash"
  const StoreCredit: string := "Store Credit"
  /** The affiliate meta key of the opt-in. */
  const StoreCreditEnabledKey: string := "store_credit_enabled"

  /** An affiliate meta row's key: the affiliate and the meta key. */
  datatype MetaKey = MetaKey(affiliateId: int, key: string)

  /** `affwp_get_affiliate_meta( $id, $key, true )`: the value, or "" when unset. */
  function MetaValue(meta: map<MetaKey, string>, affiliateId: int, key: string): string {
    if MetaKey(affiliateId, key) in meta then meta[MetaKey(affiliateId, key)] else ""
  }

  /**
   * `get_payout_method( $affiliate_id )`. `allAffiliates` is the truthiness of
   * the `store-credit-all-affiliates` setting.
   */
  function PayoutMethod(allAffiliates: bool, meta: map<MetaKey, string>, affiliateId: int): (r: string)
    ensures r == Cash || r == StoreCredit
    ensures r == StoreCredit <==> allAffiliates || Truthy(MetaValue(meta, affiliateId, StoreCreditEnabledKey))
  {
    if allAffiliates then StoreCredit
    else if Truthy(MetaValue(meta, affiliateId, StoreCreditEnabledKey)) then StoreCredit
    else Cash
  }

  /** The affiliate meta table that AffiliateWP keeps. */
  class AffiliateMeta {
    var entries: map<MetaKey, string>

    constructor(entries: map<MetaKey, string>)
      ensures this.entries == entries
    {
      this.entries := entries;
    }
  }

  /** The fields of `$data` that `update_affiliate()` reads; a key may be unset. */
  datatype AffiliateUpdate = AffiliateUpdate(affiliateId: Option<int>, enableStoreCredit: Option<string>)

  /** The meta table after the opt-in of `affiliateId` is saved as `flag`. */
  function SaveOptIn(meta: map<MetaKey, string>, affiliateId: int, flag: string): map<MetaKey, string> {
    if Truthy(flag) then meta[MetaKey(affiliateId, StoreCreditEnabledKey) := flag]
    else meta - {MetaKey(affiliateId, StoreCreditEnabledKey)}
  }

  /**
   * `update_affiliate( $data )`: with an affiliate id and the capability
   * `manage_affiliates` (`canManage`), stores a truthy opt-in flag and deletes a
   * falsy or missing one. It returns `false` for an empty id and `null` (None)
   * otherwise.
   */
  method UpdateAffiliate(meta: AffiliateMeta, data: AffiliateUpdate, canManage: bool) returns (r: Option<bool>)
    modifies meta
    ensures EmptyInt(data.affiliateId) ==> r == Some(false) && meta.entries == old(meta.entries)
    ensures !EmptyInt(data.affiliateId) && !canManage ==> r == None && meta.entries == old(meta.entries)
    ensures !EmptyInt(data.affiliateId) && canManage ==>
      r == None &&
      meta.entries == SaveOptIn(old(meta.entries), data.affiliateId.value,
                                if data.enableStoreCredit.Some? then data.enableStoreCredit.value else "")
  {
    if EmptyInt(data.affiliateId) {
      return Some(false);
    }
    if !canManage {
      return None;
    }
    var flag := if data.enableStoreCredit.Some? then data.enableStoreCredit.value else "";
    var key := MetaKey(data.affiliateId.value, StoreCreditEnabledKey);
    if Truthy(flag) {
      meta.entries := meta.entries[key := flag];
    } else {
      meta.entries := meta.entries - {key};
    }
    return None;
  }

  /**
   * Saving the opt-in decides that affiliate's payout method when the
   * all-affiliates setting is off, and leaves every other affiliate's as it was.
   */
  lemma SavedOptInDecidesPayoutMethod(meta: map<MetaKey, string>, affiliateId: int, flag: string, other: int)
    requires other != affiliateId
    ensures PayoutMethod(false, SaveOptIn(meta, affiliateId, flag), affiliateId) == if Truthy(flag) then StoreCredit else Cash
    ensures PayoutMethod(false, SaveOptIn(meta, affiliateId, flag), other) == PayoutMethod(false, meta, other)
  {
    assert MetaValue(SaveOptIn(meta, affiliateId, flag), other, StoreCreditEnabledKey)
        == MetaValue(meta, other, StoreCreditEnabledKey);
  }

  /** The all-affiliates setting overrides every affiliate's own opt-in. */
  lemma AllAffiliatesOverridesOptIn(meta: map<MetaKey, string>, affiliateId: int)
    ensures PayoutMethod(true, meta, affiliateId) == StoreCredit
  {
  }

  // ---- column_store_credit() and referrals_column_store_credit() ----

  const StoreCreditColumn: Entry<string> := Entry("store_credit", "Store Credit")
  const PayoutMethodColumn: Entry<string> := Entry("payout_method", "Payout Method")
  /** The affiliates table gets its columns after this many. */
  const AffiliateColumnsOffset: nat := 6
  /** The referrals table gets its column after this many. */
  const ReferralColumnsOffset: nat := 8

  /** The keys of the columns this file adds. */
  function AddedKeys(): set<string> {
    {StoreCreditColumn.key, PayoutMethodColumn.key}
  }

  /**
   * `column_store_credit()`: the affiliates table's columns with ours spliced
   * in. Every column of the table stays, and only ours are added.
   */
  function ColumnStoreCredit(columns: Assoc<string>): (r: Assoc<string>)
    ensures KeySet(r) == KeySet(columns) + AddedKeys()
  {
    KeySetAppend(SliceTo(columns, AffiliateColumnsOffset), SliceFrom(columns, AffiliateColumnsOffset));
    Union(
      Union(Union(SliceTo(columns, AffiliateColumnsOffset), [StoreCreditColumn]), [PayoutMethodColumn]),
      SliceFrom(columns, AffiliateColumnsOffset))
  }

  /**
   * `referrals_column_store_credit()`: the referrals table's columns with ours
   * spliced in. Every column of the table stays, and only `payout_method` is added.
   */
  function ReferralsColumnStoreCredit(columns: Assoc<string>): (r: Assoc<string>)
    ensures KeySet(r) == KeySet(columns) + {PayoutMethodColumn.key}
  {
    KeySetAppend(SliceTo(columns, ReferralColumnsOffset), SliceFrom(columns, ReferralColumnsOffset));
    Union(Union(SliceTo(columns, ReferralColumnsOffset), [PayoutMethodColumn]), SliceFrom(columns, ReferralColumnsOffset))
  }

  /** Two new columns put between the halves of a table land there, in order. */
  lemma SpliceTwo(head: Assoc<string>, tail: Assoc<string>, x: Entry<string>, y: Entry<string>)
    requires KeySet(head) !! KeySet(tail)
    requires x.key != y.key
    requires x.key !in KeySet(head) + KeySet(tail) && y.key !in KeySet(head) + KeySet(tail)
    ensures Union(Union(Union(head, [x]), [y]), tail) == head + [x, y] + tail
  {
    assert Union(head, [x]) == head + [x] by {
      UnionDisjoint(head, [x]);
    }
    assert Union(head + [x], [y]) == head + [x, y] by {
      KeySetAppend(head, [x]);
      UnionDisjoint(head + [x], [y]);
      assert head + [x] + [y] == head + [x, y];
    }
    assert Union(head + [x, y], tail) == head + [x, y] + tail by {
      KeySetAppend(head, [x, y]);
      UnionDisjoint(head + [x, y], tail);
    }
  }

  /**
   * On a table that lacks both columns, `store_credit` then `payout_method`
   * land right after the first six columns.
   */
  lemma ColumnStoreCreditPlacement(columns: Assoc<string>)
    requires UniqueKeys(columns)
    requires StoreCreditColumn.key !in KeySet(columns) && PayoutMethodColumn.key !in KeySet(columns)
    ensures ColumnStoreCredit(columns)
         == SliceTo(columns, AffiliateColumnsOffset) + [StoreCreditColumn, PayoutMethodColumn]
            + SliceFrom(columns, AffiliateColumnsOffset)
  {
    var head, tail := SliceTo(columns, AffiliateColumnsOffset), SliceFrom(columns, AffiliateColumnsOffset);
    UniqueKeysAppend(head, tail);
    KeySetAppend(head, tail);
    SpliceTwo(head, tail, StoreCreditColumn, PayoutMethodColumn);
  }

  /**
   * On any table, the result is again a table with the original keys plus
   * ours, and every other column keeps its label and its relative order.
   */
  lemma ColumnStoreCreditKeepsColumns(columns: Assoc<string>)
    requires UniqueKeys(columns)
    ensures UniqueKeys(ColumnStoreCredit(columns))
    ensures KeySet(ColumnStoreCredit(columns)) == KeySet(columns) + AddedKeys()
    ensures Without(ColumnStoreCredit(columns), AddedKeys()) == Without(columns, AddedKeys())
  {
    var head, tail := SliceTo(columns, AffiliateColumnsOffset), SliceFrom(columns, AffiliateColumnsOffset);
    UniqueKeysAppend(head, tail);
    KeySetAppend(head, tail);
    var u1 := Union(head, [StoreCreditColumn]);
    var u2 := Union(u1, [PayoutMethodColumn]);
    UnionUnique(head, [StoreCreditColumn]);
    UnionUnique(u1, [PayoutMethodColumn]);
    UnionUnique(u2, tail);
    var ks := AddedKeys();
    WithoutUnionCovered(head, [StoreCreditColumn], ks);
    WithoutUnionCovered(u1, [PayoutMethodColumn], ks);
    assert Without(u2, ks) == Without(head, ks);
    WithoutUnion(u2, tail, ks);
    assert KeySet(u2) + ks == ks + KeySet(head);
    WithoutIrrelevant(tail, ks, KeySet(head));
    assert Without(Union(u2, tail), ks) == Without(head, ks) + Without(tail, ks);
    WithoutAppend(head, tail, ks);
  }

  /** On a table without it, `payout_method` lands right after the first eight columns. */
  lemma ReferralsColumnPlacement(columns: Assoc<string>)
    requires UniqueKeys(columns)
    requires PayoutMethodColumn.key !in KeySet(columns)
    ensures ReferralsColumnStoreCredit(columns)
         == SliceTo(columns, ReferralColumnsOffset) + [PayoutMethodColumn] + SliceFrom(columns, ReferralColumnsOffset)
  {
    var head, tail := SliceTo(columns, ReferralColumnsOffset), SliceFrom(columns, ReferralColumnsOffset);
    UniqueKeysAppend(head, tail);
    KeySetAppend(head, tail);
    UnionDisjoint(head, [PayoutMethodColumn]);
    KeySetAppend(head, [PayoutMethodColumn]);
    UnionDisjoint(head + [PayoutMethodColumn], tail);
  }

  /** On any table, every column but `payout_method` keeps its label and relative order. */
  lemma ReferralsColumnKeepsColumns(columns: Assoc<string>)
    requires UniqueKeys(columns)
    ensures UniqueKeys(ReferralsColumnStoreCredit(columns))
    ensures KeySet(ReferralsColumnStoreCredit(columns)) == KeySet(columns) + {PayoutMethodColumn.key}
    ensures Without(ReferralsColumnStoreCredit(columns), {PayoutMethodColumn.key})
         == Without(columns, {PayoutMethodColumn.key})
  {
    var head, tail := SliceTo(columns, ReferralColumnsOffset), SliceFrom(columns, ReferralColumnsOffset);
    UniqueKeysAppend(head, tail);
    KeySetAppend(head, tail);
    var u1 := Union(head, [PayoutMethodColumn]);
    UnionUnique(head, [PayoutMethodColumn]);
    UnionUnique(u1, tail);
    var ks := {PayoutMethodColumn.key};
    WithoutUnionCovered(head, [PayoutMethodColumn], ks);
    WithoutUnion(u1, tail, ks);
    assert KeySet(u1) + ks == ks + KeySet(head);
    WithoutIrrelevant(tail, ks, KeySet(head));
    assert Without(Union(u1, tail), ks) == Without(head, ks) + Without(tail, ks);
    WithoutAppend(head, tail, ks);
  }

  // ---- The label of a ledger row on the edit-affiliate screen ----

  /** What a row of the adjustments table says, without its text or markup. */
  datatype Label =
    | ManualDecrease
    | ManualIncrease
    | Manual
    /** "Payout #id created", linked when the payout still exists. */
    | PayoutCreated(payoutId: int, linked: bool)
    /** "Payout #id deleted". */
    | PayoutDeleted(payoutId: int)
    /** "Store credit applied to order #id", linked when the order still exists. */
    | AppliedToOrder(orderId: int, linked: bool)
    | Refund
    | Renewal
    | Unknown

  /** The transaction types the label recognises. */
  function KnownTypes(): set<string> {
    {"manual", "payout", "purchase", "refund", "renewal"}
  }

  /**
   * The closure in `edit_affiliate_store_credit_settings()`. `payouts` are the
   * payout ids `affwp_get_payout()` finds, `orders` the order ids
   * `wc_get_order()` finds.
   */
  function TransactionLabel(t: Transaction, payouts: set<int>, orders: set<int>): (r: Label)
    ensures (r.ManualDecrease? || r.ManualIncrease? || r.Manual?) <==> t.transactionType == "manual"
    ensures r.ManualDecrease? <==> t.transactionType == "manual" && t.movement == Decrease
    ensures r.ManualIncrease? <==> t.transactionType == "manual" && t.movement == Increase
    ensures r.Unknown? <==> t.transactionType !in KnownTypes()
  {
    if t.transactionType == "manual" && t.movement == Decrease then ManualDecrease
    else if t.transactionType == "manual" && t.movement == Increase then ManualIncrease
    else if t.transactionType == "manual" then Manual
    else if t.transactionType == "payout" then
      if t.movement == Increase then PayoutCreated(t.referenceId, t.referenceId in payouts)
      else PayoutDeleted(t.referenceId)
    else if t.transactionType == "purchase" then AppliedToOrder(t.referenceId, t.referenceId in orders)
    else if t.transactionType == "refund" then Refund
    else if t.transactionType == "renewal" then Renewal
    else Unknown
  }

  /** The transaction type a label reports. */
  function LabelType(l: Label): string {
    match l
    case ManualDecrease | ManualIncrease | Manual => "manual"
    case PayoutCreated(_, _) | PayoutDeleted(_) => "payout"
    case AppliedToOrder(_, _) => "purchase"
    case Refund => "refund"
    case Renewal => "renewal"
    case Unknown => "unknown"
  }

  /** Every label reports its row's type, and an unrecognised type as "unknown". */
  lemma LabelReportsType(t: Transaction, payouts: set<int>, orders: set<int>)
    ensures LabelType(TransactionLabel(t, payouts, orders))
         == if t.transactionType in KnownTypes() then t.transactionType else "unknown"
  {
  }

  /** Payout and order labels carry the row's reference, and link only to what still exists. */
  lemma LabelReferences(t: Transaction, payouts: set<int>, orders: set<int>)
    ensures TransactionLabel(t, payouts, orders).PayoutCreated? ==>
      TransactionLabel(t, payouts, orders) == PayoutCreated(t.referenceId, t.referenceId in payouts)
    ensures TransactionLabel(t, payouts, orders).PayoutDeleted? <==>
      t.transactionType == "payout" && t.movement != Increase
    ensures TransactionLabel(t, payouts, orders).AppliedToOrder? ==>
      TransactionLabel(t, payouts, orders) == AppliedToOrder(t.referenceId, t.referenceId in orders)
  {
  }

  /** A row with the column defaults is labelled Unknown. */
  lemma DefaultRowIsUnknown(now: int, payouts: set<int>, orders: set<int>)
    ensures TransactionLabel(ColumnDefaults(now), payouts, orders) == Unknown
  {
  }

  /**
   * A row recording what the gate sent to the wallet is labelled as a manual
   * increase or decrease, in the request's direction.
   */
  lemma GateRequestLabel(
    affiliateId: int, movement: string, amount: int,
    env: Environment, affiliates: map<int, Affiliate>, currentUserId: int, reply: WalletReply,
    t: Transaction, payouts: set<int>, orders: set<int>)
    requires AdjustStoreCredit(affiliateId, movement, amount, env, affiliates, currentUserId, reply).walletCall.Some?
    requires var q := AdjustStoreCredit(affiliateId, movement, amount, env, affiliates, currentUserId, reply).walletCall.value;
             t.transactionType == q.transactionType && t.movement == q.movement
    ensures TransactionLabel(t, payouts, orders) == if movement == Increase then ManualIncrease else ManualDecrease
  {
  }

  // ---- register_settings_tab() ----

  const StoreCreditTab: string := "store-credit"

  /** `register_settings_tab( $tabs )`: adds the tab when WooCommerce or EDD is enabled. */
  function RegisterSettingsTab(tabs: Assoc<string>, env: Environment): (r: Assoc<string>)
    ensures KeySet(r) == KeySet(tabs) || KeySet(r) == KeySet(tabs) + {StoreCreditTab}
    ensures StoreCreditTab in KeySet(r) <==>
      StoreCreditTab in KeySet(tabs) || WooCommerce in env.enabledIntegrations || Edd in env.enabledIntegrations
  {
    if WooCommerce !in env.enabledIntegrations && Edd !in env.enabledIntegrations then tabs
    else Put(tabs, StoreCreditTab, "Store Credit")
  }

  /**
   * Without an enabled integration the tabs come back as they were; with one,
   * the store-credit tab reads "Store Credit", a new tab goes last, the tabs
   * stay unique, and every other tab keeps its title and position.
   */
  lemma RegisterSettingsTabEffect(tabs: Assoc<string>, env: Environment, k: string)
    requires k != StoreCreditTab
    ensures WooCommerce !in env.enabledIntegrations && Edd !in env.enabledIntegrations ==>
      RegisterSettingsTab(tabs, env) == tabs
    ensures WooCommerce in env.enabledIntegrations || Edd in env.enabledIntegrations ==>
      Get(RegisterSettingsTab(tabs, env), StoreCreditTab) == Some("Store Credit") &&
      Get(RegisterSettingsTab(tabs, env), k) == Get(tabs, k) &&
      Without(RegisterSettingsTab(tabs, env), {StoreCreditTab}) == Without(tabs, {StoreCreditTab})
    ensures (WooCommerce in env.enabledIntegrations || Edd in env.enabledIntegrations) && StoreCreditTab !in KeySet(tabs)
      ==> RegisterSettingsTab(tabs, env) == tabs + [Entry(StoreCreditTab, "Store Credit")]
    ensures UniqueKeys(tabs) ==> UniqueKeys(RegisterSettingsTab(tabs, env))
  {
    PutPosition(tabs, StoreCreditTab, "Store Credit");
    if UniqueKeys(tabs) {
      PutUnique(tabs, StoreCreditTab, "Store Credit");
    }
    GetPut(tabs, StoreCreditTab, "Store Credit");
    GetPutOther(tabs, StoreCreditTab, "Store Credit", k);
    WithoutPut(tabs, StoreCreditTab, "Store Credit");
  }

  /** An active integration always brings the settings tab. */
  lemma ActiveIntegrationShowsTab(tabs: Assoc<string>, env: Environment)
    requires ActiveIntegration(env) != NoIntegration
    ensures Get(RegisterSettingsTab(tabs, env), StoreCreditTab) == Some("Store Credit")
  {
    GetPut(tabs, StoreCreditTab, "Store Credit");
  }

  /**
   * The tab asks only for the enabled list: it shows even when no integration
   * is active, as on a site where store credit is switched off and so no
   * integration class is loaded.
   */
  lemma TabWithoutActiveIntegration(tabs: Assoc<string>)
    ensures var env := Environment(false, false, false, [WooCommerce]);
            LoadedOnlyIfEnabled(env) && ActiveIntegration(env) == NoIntegration &&
            Get(RegisterSettingsTab(tabs, env), StoreCreditTab) == Some("Store Credit")
  {
    GetPut(tabs, StoreCreditTab, "Store Credit");
  }
}
