/**
 * The active wallet integration and the balance read (includes/functions.php).
 *
 * Exactly one wallet backend serves store credit at a time: WooCommerce when
 * its store-credit class is loaded and the integration is enabled, otherwise
 * Easy Digital Downloads when its store-credit class and the EDD Wallet plugin
 * are loaded and the integration is enabled, otherwise none. The balance read
 * resolves whose balance to show, asks the active backend, and answers a
 * sentinel when no backend is active.
 */
module Integration {
  import opened PhpValues

  const WooCommerce: string := "woocommerce"
  const Edd: string := "edd"
  /** The selector's answer when no integration is active. */
  const NoIntegration: string := ""

  /** What the selector reads from the running site. */
  datatype Environment = Environment(
    /** `class_exists( 'AffiliateWP_Store_Credit_WooCommerce' )` */
    wooCommerceStoreCredit: bool,
    /** `class_exists( 'AffiliateWP_Store_Credit_EDD' )` */
    eddStoreCredit: bool,
    /** `class_exists( 'EDD_Wallet' )` */
    eddWallet: bool,
    /** The keys of AffiliateWP's enabled integrations. */
    enabledIntegrations: seq<string>)

  /** `affiliatewp_store_credit_get_active_integration()`: WooCommerce first, then EDD. */
  function ActiveIntegration(env: Environment): (r: string)
    ensures r == WooCommerce || r == Edd || r == NoIntegration
  {
    if env.wooCommerceStoreCredit && WooCommerce in env.enabledIntegrations then
      WooCommerce
    else if env.eddStoreCredit && env.eddWallet && Edd in env.enabledIntegrations then
      Edd
    else
      NoIntegration
  }

  /** WooCommerce is chosen whenever it is available, whatever the EDD state. */
  lemma WooCommerceHasPriority(env: Environment, eddStoreCredit: bool, eddWallet: bool)
    requires env.wooCommerceStoreCredit && WooCommerce in env.enabledIntegrations
    ensures ActiveIntegration(env) == WooCommerce
    ensures ActiveIntegration(env.(eddStoreCredit := eddStoreCredit, eddWallet := eddWallet)) == WooCommerce
  {
  }

  /** EDD is chosen exactly when WooCommerce is not and all three EDD conditions hold. */
  lemma EddChosenIff(env: Environment)
    ensures ActiveIntegration(env) == Edd <==>
      !(env.wooCommerceStoreCredit && WooCommerce in env.enabledIntegrations) &&
      env.eddStoreCredit && env.eddWallet && Edd in env.enabledIntegrations
  {
  }

  /** No integration is active exactly when neither backend's conditions hold. */
  lemma NoIntegrationIff(env: Environment)
    ensures ActiveIntegration(env) == NoIntegration <==>
      !(env.wooCommerceStoreCredit && WooCommerce in env.enabledIntegrations) &&
      !(env.eddStoreCredit && env.eddWallet && Edd in env.enabledIntegrations)
  {
  }

  /**
   * The plugin loads an integration's store-credit class only for an enabled
   * integration, so a loaded class implies its integration is enabled.
   */
  predicate LoadedOnlyIfEnabled(env: Environment) {
    (env.wooCommerceStoreCredit ==> WooCommerce in env.enabledIntegrations) &&
    (env.eddStoreCredit ==> Edd in env.enabledIntegrations)
  }

  /** Under that loading rule, a loaded WooCommerce class is the same as WooCommerce being active. */
  lemma WooCommerceLoadedIffActive(env: Environment)
    requires LoadedOnlyIfEnabled(env)
    ensures env.wooCommerceStoreCredit <==> ActiveIntegration(env) == WooCommerce
  {
  }

  /** An affiliate record as `affwp_get_affiliate()` returns it. */
  datatype Affiliate = Affiliate(affiliateId: int, userId: int)

  /** The site data the balance read consults; amounts are in cents. */
  datatype Site = Site(
    /** The affiliates `affwp_get_affiliate()` can find, by affiliate id. */
    affiliates: map<int, Affiliate>,
    /** `affwp_get_affiliate_id()`: the current visitor's affiliate id, None (`false`) if none. */
    currentAffiliateId: Option<int>,
    /** User meta `affwp_wc_credit_balance`, by user id. */
    wooCommerceCredit: map<int, int>,
    /** `edd_wallet()->wallet->balance()`, by user id. */
    eddBalances: map<int, int>)

  /** Whether `affwp_get_affiliate()` finds the affiliate: ids start at 1. */
  predicate KnownAffiliate(site: Site, affiliateId: int) {
    affiliateId > 0 && affiliateId in site.affiliates
  }

  /** `affwp_get_affiliate_user_id()`: the affiliate's user, or None (`false`) for an unknown affiliate. */
  function AffiliateUserId(site: Site, affiliateId: int): Option<int> {
    if KnownAffiliate(site, affiliateId) then Some(site.affiliates[affiliateId].userId) else None
  }

  /** The users that some affiliate of the directory belongs to. */
  function AffiliateUsers(site: Site): set<int> {
    set a | a in site.affiliates.Values :: a.userId
  }

  /**
   * A stored balance. No user (`false`) and a user id that is not positive own
   * nothing, and a user without a stored balance reads as 0 (`floatval( '' )`).
   */
  function StoredBalance(store: map<int, int>, user: Option<int>): int {
    if user.Some? && user.value > 0 && user.value in store then store[user.value] else 0
  }

  /** The `$args` of `affwp_store_credit_balance()`; a key may be unset. */
  datatype BalanceArgs = BalanceArgs(userId: Option<int>, affiliateId: Option<int>)

  /**
   * The affiliate whose user is read when no `user_id` is given; None when the
   * visitor is no affiliate either.
   */
  function ChosenAffiliateId(args: BalanceArgs, site: Site): Option<int> {
    if !EmptyInt(args.affiliateId) then args.affiliateId else site.currentAffiliateId
  }

  /**
   * Whose balance is read: an explicit `user_id` wins, then a non-empty
   * `affiliate_id`'s user, then the current affiliate's user. None stands for
   * the `false` of an affiliate that does not exist.
   */
  function ResolveUserId(args: BalanceArgs, site: Site): (u: Option<int>)
    ensures u.None? <==>
      args.userId.None? &&
      (ChosenAffiliateId(args, site).None? || !KnownAffiliate(site, ChosenAffiliateId(args, site).value))
    ensures args.userId.Some? ==> u == args.userId
    ensures args.userId.None? && u.Some? ==> u.value in AffiliateUsers(site)
  {
    if args.userId.Some? then args.userId
    else
      var id := ChosenAffiliateId(args, site);
      if id.Some? && KnownAffiliate(site, id.value) then
        assert site.affiliates[id.value] in site.affiliates.Values;
        AffiliateUserId(site, id.value)
      else
        None
  }

  /**
   * What `affwp_store_credit_balance()` returns: `false` when no integration is
   * active, otherwise the balance, either as the currency-formatted string of
   * that amount or as the raw number.
   */
  datatype BalanceView = Unavailable | Raw(amount: int) | Formatted(amount: int)

  /** `affwp_store_credit_balance( $args, $formatted )`. */
  function StoreCreditBalance(args: BalanceArgs, formatted: bool, env: Environment, site: Site): (r: BalanceView)
    ensures r.Unavailable? <==> ActiveIntegration(env) == NoIntegration
    ensures ActiveIntegration(env) == WooCommerce ==>
      r.amount == StoredBalance(site.wooCommerceCredit, ResolveUserId(args, site))
    ensures ActiveIntegration(env) == Edd ==>
      r.amount == StoredBalance(site.eddBalances, ResolveUserId(args, site))
    ensures !r.Unavailable? ==> (r.Formatted? <==> formatted)
    ensures !r.Unavailable? && (ResolveUserId(args, site).None? || ResolveUserId(args, site).value <= 0) ==>
      r.amount == 0
  {
    var userId := ResolveUserId(args, site);
    var integration := ActiveIntegration(env);
    if integration == NoIntegration then
      Unavailable
    else
      var balance :=
        if integration == WooCommerce then StoredBalance(site.wooCommerceCredit, userId)
        else StoredBalance(site.eddBalances, userId);
      if formatted then Formatted(balance) else Raw(balance)
  }

  /** `$formatted` only picks the representation of one and the same read. */
  lemma FormattingKeepsAmount(args: BalanceArgs, env: Environment, site: Site)
    ensures StoreCreditBalance(args, true, env, site).Unavailable? ==
            StoreCreditBalance(args, false, env, site).Unavailable?
    ensures !StoreCreditBalance(args, true, env, site).Unavailable? ==>
            StoreCreditBalance(args, true, env, site).amount == StoreCreditBalance(args, false, env, site).amount
  {
  }

  /** The sentinel is never mistaken for a zero balance. */
  lemma UnavailableIsNotZero(args: BalanceArgs, formatted: bool, env: Environment, site: Site)
    requires ActiveIntegration(env) == NoIntegration
    ensures StoreCreditBalance(args, formatted, env, site) != Raw(0)
    ensures StoreCreditBalance(args, formatted, env, site) != Formatted(0)
  {
  }

  /** An explicit `user_id` decides alone: the affiliate arguments are ignored. */
  lemma ExplicitUserIdWins(args: BalanceArgs, site: Site, affiliateId: Option<int>, currentAffiliateId: Option<int>)
    requires args.userId.Some?
    ensures ResolveUserId(args, site) == args.userId
    ensures ResolveUserId(args.(affiliateId := affiliateId), site.(currentAffiliateId := currentAffiliateId))
            == args.userId
  {
  }

  /** Without `user_id`, a non-empty `affiliate_id` picks that affiliate's user. */
  lemma AffiliateIdBeforeCurrent(args: BalanceArgs, site: Site, currentAffiliateId: Option<int>)
    requires args.userId.None? && !EmptyInt(args.affiliateId)
    ensures ResolveUserId(args, site) == AffiliateUserId(site, args.affiliateId.value)
    ensures ResolveUserId(args, site.(currentAffiliateId := currentAffiliateId)) == ResolveUserId(args, site)
  {
  }

  /**
   * With neither argument (or `affiliate_id` empty), the current affiliate's
   * user is read, and a visitor who is no affiliate has no user.
   */
  lemma CurrentAffiliateFallback(args: BalanceArgs, site: Site)
    requires args.userId.None? && EmptyInt(args.affiliateId)
    ensures site.currentAffiliateId.Some? ==>
      ResolveUserId(args, site) == AffiliateUserId(site, site.currentAffiliateId.value)
    ensures site.currentAffiliateId.None? ==> ResolveUserId(args, site).None?
  {
  }

  /**
   * A visitor who is no affiliate, asking without arguments, reads a zero
   * balance from an active integration, whatever the directory and the stored
   * balances hold.
   */
  lemma NonAffiliateReadsZero(args: BalanceArgs, formatted: bool, env: Environment, site: Site)
    requires args.userId.None? && EmptyInt(args.affiliateId) && site.currentAffiliateId.None?
    requires ActiveIntegration(env) != NoIntegration
    ensures StoreCreditBalance(args, formatted, env, site).amount == 0
  {
    CurrentAffiliateFallback(args, site);
  }
}
