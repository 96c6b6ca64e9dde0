/** Payment configuration: the provider table, choosing the active
    provider, checking that a provider has its credentials, choosing the
    setup instructions, and the shipping fee. */
module Payment {
  import opened Types
  import Seqs

  /** The credential strings the provider table reads from the
      environment (in a browser each of them is the empty string). */
  datatype Credentials = Credentials(
    paypalClientId: string,
    paypalClientSecret: string,
    stripePublishableKey: string,
    stripeSecretKey: string,
    squareApplicationId: string,
    squareAccessToken: string)

  const BrowserCredentials := Credentials("", "", "", "", "", "")

  /** `PAYMENT_PROVIDERS` as shipped: only the mock provider is enabled. */
  function Providers(env: Credentials): seq<PaymentProvider> {
    [ PaymentProvider("paypal", "PayPal", false,
        map["clientId" := env.paypalClientId, "clientSecret" := env.paypalClientSecret]),
      PaymentProvider("stripe", "Stripe", false,
        map["publishableKey" := env.stripePublishableKey, "secretKey" := env.stripeSecretKey]),
      PaymentProvider("square", "Square", false,
        map["applicationId" := env.squareApplicationId, "accessToken" := env.squareAccessToken]),
      PaymentProvider("mock", "Mock Payment (Development)", true, map[]) ]
  }

  const MockId := "mock"

  function IsEnabled(): PaymentProvider -> bool {
    (p: PaymentProvider) => p.enabled
  }

  function HasProviderId(id: string): PaymentProvider -> bool {
    (p: PaymentProvider) => p.id == id
  }

  // ---------------------------------------------------------------------
  // The active provider

  /** `getActivePaymentProvider` over a provider table: the first enabled
      provider, else the mock one. `None` is the case the source's non-null
      assertion does not cover: nothing enabled and no mock entry. */
  function ActiveProvider(table: seq<PaymentProvider>): (r: Option<PaymentProvider>)
    ensures r.Some? ==> r.value in table && (r.value.enabled || r.value.id == MockId)
    ensures (exists i :: 0 <= i < |table| && table[i].enabled) ==> r.Some? && r.value.enabled
    ensures (forall i :: 0 <= i < |table| ==> !table[i].enabled) ==>
              (r.Some? <==> exists i :: 0 <= i < |table| && table[i].id == MockId)
  {
    match Seqs.Find(table, IsEnabled())
    case Some(p) => Some(p)
    case None => Seqs.Find(table, HasProviderId(MockId))
  }

  /** The active provider is the first enabled one. */
  lemma ActiveProviderFirstEnabled(table: seq<PaymentProvider>, k: nat)
    requires k < |table| && table[k].enabled
    requires forall j :: 0 <= j < k ==> !table[j].enabled
    ensures ActiveProvider(table) == Some(table[k])
  {
    Seqs.FindFirst(table, IsEnabled(), k);
  }

  /** With nothing enabled, the active provider is the first mock entry. */
  lemma ActiveProviderFallback(table: seq<PaymentProvider>, k: nat)
    requires forall i :: 0 <= i < |table| ==> !table[i].enabled
    requires k < |table| && table[k].id == MockId
    requires forall j :: 0 <= j < k ==> table[j].id != MockId
    ensures ActiveProvider(table) == Some(table[k])
  {
    Seqs.FindFirst(table, HasProviderId(MockId), k);
  }

  /** With the shipped table the active provider is the mock one. */
  function GetActivePaymentProvider(env: Credentials): (p: PaymentProvider)
    ensures p == Providers(env)[3] && p.id == MockId && p.enabled
  {
    ActiveProviderFirstEnabled(Providers(env), 3);
    ActiveProvider(Providers(env)).value
  }

  // ---------------------------------------------------------------------
  // Configured providers

  /** A config entry reads as a truthy string. */
  predicate Present(config: map<string, string>, key: string) {
    key in config && config[key] != ""
  }

  /** `isPaymentProviderConfigured` over a provider table: the first entry
      carrying the id decides, by the credentials its provider needs. */
  function IsConfigured(table: seq<PaymentProvider>, providerId: string): (b: bool)
    ensures (forall i :: 0 <= i < |table| ==> table[i].id != providerId) ==> !b
    ensures providerId !in {"paypal", "stripe", "square", MockId} ==> !b
    ensures providerId == MockId ==> (b <==> exists i :: 0 <= i < |table| && table[i].id == MockId)
    ensures forall k: nat :: Seqs.FirstIndex(table, HasProviderId(providerId), k) ==>
              (providerId == "paypal" ==>
                 (b <==> Present(table[k].config, "clientId") && Present(table[k].config, "clientSecret")))
              && (providerId == "stripe" ==>
                 (b <==> Present(table[k].config, "publishableKey") && Present(table[k].config, "secretKey")))
              && (providerId == "square" ==>
                 (b <==> Present(table[k].config, "applicationId") && Present(table[k].config, "accessToken")))
  {
    Seqs.FindAtFirstIndex(table, HasProviderId(providerId));
    match Seqs.Find(table, HasProviderId(providerId))
    case None => false
    case Some(p) =>
      if providerId == "paypal" then Present(p.config, "clientId") && Present(p.config, "clientSecret")
      else if providerId == "stripe" then Present(p.config, "publishableKey") && Present(p.config, "secretKey")
      else if providerId == "square" then Present(p.config, "applicationId") && Present(p.config, "accessToken")
      else if providerId == MockId then true
      else false
  }

  /** Where each provider sits in the shipped table. */
  lemma PaypalLookup(env: Credentials)
    ensures Seqs.Find(Providers(env), HasProviderId("paypal")) == Some(Providers(env)[0])
  {
    Seqs.FindFirst(Providers(env), HasProviderId("paypal"), 0);
  }

  lemma StripeLookup(env: Credentials)
    ensures Seqs.Find(Providers(env), HasProviderId("stripe")) == Some(Providers(env)[1])
  {
    Seqs.FindFirst(Providers(env), HasProviderId("stripe"), 1);
  }

  lemma SquareLookup(env: Credentials)
    ensures Seqs.Find(Providers(env), HasProviderId("square")) == Some(Providers(env)[2])
  {
    Seqs.FindFirst(Providers(env), HasProviderId("square"), 2);
  }

  lemma MockLookup(env: Credentials)
    ensures Seqs.Find(Providers(env), HasProviderId(MockId)) == Some(Providers(env)[3])
  {
    Seqs.FindFirst(Providers(env), HasProviderId(MockId), 3);
  }

  /** With the shipped table the mock provider is configured and an id
      outside the table is not. */
  lemma ShippedMockConfigured(env: Credentials, other: string)
    requires other !in {"paypal", "stripe", "square", MockId}
    ensures IsConfigured(Providers(env), MockId)
    ensures !IsConfigured(Providers(env), other)
  {
    MockLookup(env);
  }

  /** With the shipped table each real provider is configured iff both of
      its credential strings are non-empty. */
  lemma ShippedPaypalConfigured(env: Credentials)
    ensures IsConfigured(Providers(env), "paypal")
            <==> env.paypalClientId != "" && env.paypalClientSecret != ""
  {
    PaypalLookup(env);
  }

  lemma ShippedStripeConfigured(env: Credentials)
    ensures IsConfigured(Providers(env), "stripe")
            <==> env.stripePublishableKey != "" && env.stripeSecretKey != ""
  {
    StripeLookup(env);
  }

  lemma ShippedSquareConfigured(env: Credentials)
    ensures IsConfigured(Providers(env), "square")
            <==> env.squareApplicationId != "" && env.squareAccessToken != ""
  {
    SquareLookup(env);
  }

  /** In a browser no real provider is configured. */
  lemma BrowserNothingConfigured()
    ensures !IsConfigured(Providers(BrowserCredentials), "paypal")
    ensures !IsConfigured(Providers(BrowserCredentials), "stripe")
    ensures !IsConfigured(Providers(BrowserCredentials), "square")
  {
    ShippedPaypalConfigured(BrowserCredentials);
    ShippedStripeConfigured(BrowserCredentials);
    ShippedSquareConfigured(BrowserCredentials);
  }

  // ---------------------------------------------------------------------
  // Setup report

  datatype Instructions = Instructions(title: string, steps: seq<string>, docs: string)

  /** `PAYMENT_SETUP_INSTRUCTIONS[id]`: present for the three real providers. */
  function InstructionsFor(id: string): Option<Instructions> {
    if id == "paypal" then Some(PaypalInstructions)
    else if id == "stripe" then Some(StripeInstructions)
    else if id == "square" then Some(SquareInstructions)
    else None
  }

  const PaypalInstructions: Instructions :=
    Instructions("PayPal Setup", [
      "1. Visit https://developer.paypal.com/",
      "2. Create a new app in your PayPal Developer Dashboard",
      "3. Get your Client ID and Client Secret",
      "4. Add to .env.local:",
      "   NEXT_PUBLIC_PAYPAL_CLIENT_ID=your_client_id",
      "   PAYPAL_CLIENT_SECRET=your_client_secret",
      "5. Set enabled: true in src/lib/payment.ts"], "https://developer.paypal.com/docs/")

  const StripeInstructions: Instructions :=
    Instructions("Stripe Setup", [
      "1. Visit https://dashboard.stripe.com/",
      "2. Go to Developers > API keys",
      "3. Copy your Publishable key and Secret key",
      "4. Add to .env.local:",
      "   NEXT_PUBLIC_STRIPE_PUBLISHABLE_KEY=pk_test_...",
      "   STRIPE_SECRET_KEY=sk_test_...",
      "5. Set enabled: true in src/lib/payment.ts"], "https://stripe.com/docs")

  const SquareInstructions: Instructions :=
    Instructions("Square Setup", [
      "1. Visit https://developer.squareup.com/",
      "2. Create a new application",
      "3. Get your Application ID and Access Token",
      "4. Add to .env.local:",
      "   NEXT_PUBLIC_SQUARE_APPLICATION_ID=your_app_id",
      "   SQUARE_ACCESS_TOKEN=your_access_token",
      "5. Set enabled: true in src/lib/payment.ts"], "https://developer.squareup.com/docs")

  /** What `validatePaymentSetup` returns: the active provider, whether it
      is configured, and its setup instructions (`None` for null/undefined). */
  datatype SetupReport = SetupReport(
    provider: PaymentProvider,
    configured: bool,
    instructions: Option<Instructions>)

  /** `validatePaymentSetup` over a provider table. `None` is the table with
      no active provider, where the source would dereference undefined. */
  function ValidatePaymentSetup(table: seq<PaymentProvider>): Option<SetupReport> {
    match ActiveProvider(table)
    case None => None
    case Some(p) =>
      Some(SetupReport(p, IsConfigured(table, p.id),
        if p.id != MockId then InstructionsFor(p.id) else None))
  }

  /** For a table of the four known providers: a report exists whenever a
      provider is active, it is about the active provider, and it carries
      no instructions iff that provider is the mock one, otherwise the
      active provider's own instructions. */
  lemma ValidatePaymentSetupSpec(table: seq<PaymentProvider>)
    requires forall i :: 0 <= i < |table| ==> table[i].id in {"paypal", "stripe", "square", MockId}
    ensures ValidatePaymentSetup(table).Some? <==> ActiveProvider(table).Some?
    ensures ValidatePaymentSetup(table).Some? ==>
              var rep := ValidatePaymentSetup(table).value;
              rep.provider == ActiveProvider(table).value
              && rep.configured == IsConfigured(table, rep.provider.id)
              && (rep.instructions.None? <==> rep.provider.id == MockId)
              && (rep.provider.id != MockId ==> rep.instructions == InstructionsFor(rep.provider.id))
  {
    match ActiveProvider(table)
    case None =>
    case Some(p) =>
      assert p.id in {"paypal", "stripe", "square", MockId};
      InstructionsForKnown(p.id);
  }

  /** The three real providers have setup instructions; nothing else has. */
  lemma InstructionsForKnown(id: string)
    ensures InstructionsFor(id).Some? <==> id in {"paypal", "stripe", "square"}
  {
  }

  /** As shipped: the mock provider, configured, with no instructions. */
  lemma ShippedSetup(env: Credentials)
    ensures ValidatePaymentSetup(Providers(env))
         == Some(SetupReport(Providers(env)[3], true, None))
  {
    ActiveProviderFirstEnabled(Providers(env), 3);
    ShippedMockConfigured(env, "");
  }

  // ---------------------------------------------------------------------
  // Shipping

  /** `calculateShipping`: free from a subtotal of 50, else 5 for at most
      two items and 10 for more. */
  function CalculateShipping(subtotal: int, items: int): (fee: int)
    ensures fee in {0, 5, 10}
    ensures fee == 0 <==> subtotal >= 50
    ensures fee == 5 <==> subtotal < 50 && items <= 2
    ensures fee == 10 <==> subtotal < 50 && items > 2
  {
    if subtotal >= 50 then 0
    else if items <= 2 then 5
    else 10
  }

  /** A larger subtotal never costs more shipping; more items never cost less. */
  lemma ShippingMonotone(s1: int, s2: int, n1: int, n2: int)
    requires s1 <= s2 && n1 <= n2
    ensures CalculateShipping(s2, n1) <= CalculateShipping(s1, n1)
    ensures CalculateShipping(s1, n1) <= CalculateShipping(s1, n2)
  {
  }
}
