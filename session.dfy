/**
 * The `App` component's session state and its handlers: the mount effect,
 * login (`handleVisitStore`), purchase (`handlePurchase`, behind the Buy
 * button's enable guard) and logout (`handleLogout`). Each handler is one
 * atomic step that sees the state of the render it was created in; the
 * analytics calls it makes are appended to `log`.
 */
module Session {
  import opened Wrappers
  import opened JsNumbers
  import opened Identity
  import opened Tracking

  /** `localStorage.getItem(key)`: the stored string, or null. */
  function GetItem(storage: map<string, JsString>, key: string): (r: Option<JsString>)
    ensures r.Some? <==> key in storage
    ensures r.Some? ==> r.value == storage[key]
  {
    if key in storage then Some(storage[key]) else None
  }

  /** The properties of the "Order Completed" event for a purchase by p. */
  function OrderProps(p: Profile, product: Product): (r: Props)
    ensures r.Keys == {"email", "name", "productId", "productName", "price", "category"}
    ensures r["email"] == Str(p.email) && r["name"] == Str(p.name)
    ensures r["productId"] == Str(product.id) && r["productName"] == Str(product.name)
    ensures r["price"] == Str(product.price) && r["category"] == Str(product.category)
    ensures EmailProp(r) == Some(p.email) && UserIdKey !in r
  {
    map["email" := Str(p.email), "name" := Str(p.name), "productId" := Str(product.id),
        "productName" := Str(product.name), "price" := Str(product.price),
        "category" := Str(product.category)]
  }

  predicate NoDuplicates(s: seq<JsString>) {
    forall i, j :: 0 <= i < j < |s| ==> s[i] != s[j]
  }

  /** Events sent on behalf of a known visitor carry that visitor's id. */
  predicate Attributed(e: Event) {
    && (e.Identify? ==> e.userId.Some?)
    && (e.Track? && e.event in {"Logged In", "Auto Login", "Order Completed"} ==> UserIdKey in e.properties)
  }

  predicate AllAttributed(log: seq<Event>) {
    forall i :: 0 <= i < |log| ==> Attributed(log[i])
  }

  /** Appending an attributed event keeps a log attributed. */
  lemma AttributedSnoc(log: seq<Event>, e: Event)
    requires AllAttributed(log) && Attributed(e)
    ensures AllAttributed(log + [e])
  {
    assert forall i :: 0 <= i < |log| ==> (log + [e])[i] == log[i];
  }

  /** The identify call and the track call with the visitor's own email are attributed. */
  lemma LoginEventsAttributed(event: string, p: Profile, props: Props, current: Option<Profile>)
    requires p.email != []
    requires EmailProp(props) == Some(p.email) && UserIdKey !in props
    ensures Attributed(IdentifyEvent(p.email, p.name))
    ensures Attributed(TrackEvent(event, props, current))
  {
  }

  class App {
    // the component's state (useState) and the browser's localStorage
    var email: JsString
    var name: JsString
    var profile: Option<Profile>
    var purchasedItems: seq<JsString>
    var storage: map<string, JsString>
    // every call made to the analytics client, oldest first
    var log: seq<Event>

    /**
     * A logged-in visitor has a non-empty email and name, both mirrored in
     * the store; purchases exist only while someone is logged in; every
     * identify and every login or order event is attributed to a user id.
     */
    ghost predicate Valid()
      reads this`profile, this`storage, this`purchasedItems, this`log
    {
      && (profile.Some? ==> profile.value.email != [] && profile.value.name != [])
      && (profile.Some? ==>
            GetItem(storage, "email") == Some(profile.value.email) &&
            GetItem(storage, "name") == Some(profile.value.name))
      && (purchasedItems != [] ==> profile.Some?)
      && AllAttributed(log)
    }

    /** No product has been bought twice in this session. */
    predicate NoRepeatPurchases()
      reads this`purchasedItems
    {
      NoDuplicates(purchasedItems)
    }

    /** The first render, with `stored` as the contents of localStorage. */
    constructor (stored: map<string, JsString>)
      ensures email == [] && name == [] && profile == None && purchasedItems == []
      ensures storage == stored && log == []
      ensures Valid() && NoRepeatPurchases()
    {
      email, name, profile, purchasedItems := [], [], None, [];
      storage, log := stored, [];
    }

    /** The name input's `onChange`. */
    method EditName(value: JsString)
      modifies this`name
      ensures name == value
    {
      name := value;
    }

    /** The email input's `onChange`. */
    method EditEmail(value: JsString)
      modifies this`email
      ensures email == value
    {
      email := value;
    }

    /** `segmentIdentify({ email, name })`. */
    method SegmentIdentify(p: Profile)
      modifies this`log
      ensures log == old(log) + [IdentifyEvent(p.email, p.name)]
    {
      var userId := HashEmail(Some(p.email));
      log := log + [Identify(userId, EmailAndName(p.email, p.name))];
    }

    /** `segmentTrack(event, props)` in a render whose profile was `current`. */
    method SegmentTrack(event: string, props: Props, current: Option<Profile>)
      modifies this`log
      ensures log == old(log) + [TrackEvent(event, props, current)]
    {
      var userId: Option<JsString> := None;
      if Truthy(EmailProp(props)) {
        userId := HashEmail(EmailProp(props));
      } else if Truthy(ProfileEmail(current)) {
        userId := HashEmail(ProfileEmail(current));
      }
      var trackProps := props;
      if Truthy(userId) {
        trackProps := trackProps[UserIdKey := Str(userId.value)];
      }
      log := log + [Track(event, trackProps)];
    }

    /** The mount effect: restore a saved login, or record an anonymous visit. */
    method Mount()
      requires Valid()
      modifies this
      ensures Valid()
      ensures storage == old(storage) && purchasedItems == old(purchasedItems)
      ensures Truthy(GetItem(storage, "email")) && Truthy(GetItem(storage, "name")) ==>
        var savedEmail, savedName := storage["email"], storage["name"];
        && email == savedEmail && name == savedName
        && profile == Some(Profile(savedEmail, savedName))
        && log == old(log) + [IdentifyEvent(savedEmail, savedName),
                              TrackEvent("Auto Login", map["email" := Str(savedEmail)], old(profile))]
      ensures !(Truthy(GetItem(storage, "email")) && Truthy(GetItem(storage, "name"))) ==>
        && email == old(email) && name == old(name) && profile == old(profile)
        && log == old(log) + [TrackEvent("Visited Website", map["anonymous" := Bool(true)], old(profile))]
    {
      var current := profile;
      var savedEmail := GetItem(storage, "email");
      var savedName := GetItem(storage, "name");
      if Truthy(savedEmail) && Truthy(savedName) {
        email := savedEmail.value;
        name := savedName.value;
        profile := Some(Profile(savedEmail.value, savedName.value));
        var props: Props := map["email" := Str(savedEmail.value)];
        ghost var identify, track := IdentifyEvent(savedEmail.value, savedName.value), TrackEvent("Auto Login", props, current);
        LoginEventsAttributed("Auto Login", profile.value, props, current);
        AttributedSnoc(log, identify);
        SegmentIdentify(Profile(savedEmail.value, savedName.value));
        AttributedSnoc(log, track);
        ghost var before := log;
        SegmentTrack("Auto Login", props, current);
        assert log == old(log) + [identify, track] by {
          assert log == before + [track] && before == old(log) + [identify];
        }
      } else {
        AttributedSnoc(log, TrackEvent("Visited Website", map["anonymous" := Bool(true)], current));
        SegmentTrack("Visited Website", map["anonymous" := Bool(true)], current);
      }
    }

    /** The Login button: log in with the typed name and email, or do nothing if either is empty. */
    method HandleVisitStore()
      requires Valid()
      modifies this
      ensures Valid()
      ensures email == old(email) && name == old(name) && purchasedItems == old(purchasedItems)
      ensures email != [] && name != [] ==>
        && storage == old(storage)["email" := email]["name" := name]
        && profile == Some(Profile(email, name))
        && log == old(log) + [IdentifyEvent(email, name),
                              TrackEvent("Logged In", EmailAndName(email, name), old(profile))]
      ensures email == [] || name == [] ==>
        storage == old(storage) && profile == old(profile) && log == old(log)
    {
      var current := profile;
      if email != [] && name != [] {
        storage := storage["email" := email];
        storage := storage["name" := name];
        assert GetItem(storage, "email") == Some(email) && GetItem(storage, "name") == Some(name);
        profile := Some(Profile(email, name));
        ghost var identify, track := IdentifyEvent(email, name), TrackEvent("Logged In", EmailAndName(email, name), current);
        LoginEventsAttributed("Logged In", profile.value, EmailAndName(email, name), current);
        AttributedSnoc(log, identify);
        SegmentIdentify(Profile(email, name));
        AttributedSnoc(log, track);
        ghost var before := log;
        SegmentTrack("Logged In", EmailAndName(email, name), current);
        assert log == old(log) + [identify, track] by {
          assert log == before + [track] && before == old(log) + [identify];
        }
      }
    }

    /** `handlePurchase(product)`: record the order, or do nothing when nobody is logged in. */
    method HandlePurchase(product: Product)
      requires Valid()
      modifies this`log, this`purchasedItems
      ensures Valid()
      ensures
        if profile.Some? then
          && purchasedItems == old(purchasedItems) + [product.id]
          && log == old(log) + [TrackEvent("Order Completed", OrderProps(profile.value, product), profile)]
        else
          purchasedItems == old(purchasedItems) && log == old(log)
    {
      if profile.Some? {
        SegmentTrack("Order Completed", OrderProps(profile.value, product), profile);
        purchasedItems := purchasedItems + [product.id];
      }
    }

    /** The Log Out button: forget the visitor, then track the logout under the profile of the old render. */
    method HandleLogout()
      requires Valid()
      modifies this
      ensures Valid() && NoRepeatPurchases()
      ensures storage == map[] && profile == None && email == [] && name == [] && purchasedItems == []
      ensures log == old(log) + [TrackEvent("Logged Out", map[], old(profile))]
      ensures UserIdKey in log[|log| - 1].properties <==> old(profile).Some?
    {
      var current := profile;
      storage := map[];
      profile := None;
      email := [];
      name := [];
      purchasedItems := [];
      SegmentTrack("Logged Out", map[], current);
    }

    /** The Buy button of a product is enabled: `!(!profile || purchasedItems.includes(id))`. */
    predicate BuyEnabled(id: JsString)
      reads this`profile, this`purchasedItems
      ensures BuyEnabled(id) <==> profile.Some? && id !in purchasedItems
    {
      !(profile.None? || id in purchasedItems)
    }

    /** A click on a product's Buy button, which a disabled button ignores. */
    method ClickBuy(product: Product)
      requires Valid() && NoRepeatPurchases()
      modifies this`log, this`purchasedItems
      ensures Valid() && NoRepeatPurchases()
      ensures
        if old(BuyEnabled(product.id)) then
          && purchasedItems == old(purchasedItems) + [product.id]
          && log == old(log) + [TrackEvent("Order Completed", OrderProps(profile.value, product), profile)]
        else
          purchasedItems == old(purchasedItems) && log == old(log)
    {
      if BuyEnabled(product.id) {
        HandlePurchase(product);
      }
    }
  }

  /**
   * What a caller can conclude from the handlers' contracts alone: a login
   * on a fresh page, two clicks on one Buy button, a logout.
   */
  method Walkthrough(al: JsString, mail: JsString, product: Product)
    requires al != [] && mail != []
  {
    var app := new App(map[]);
    app.EditName(al);
    app.EditEmail(mail);
    app.HandleVisitStore();
    assert app.log[0] == IdentifyEvent(mail, al) && app.log[0].userId.Some?;
    assert app.profile == Some(Profile(mail, al)) && app.purchasedItems == [];
    app.ClickBuy(product);
    assert app.purchasedItems == [product.id];
    app.ClickBuy(product);
    assert app.purchasedItems == [product.id];
    app.HandleLogout();
    assert app.log[|app.log| - 1] == TrackEvent("Logged Out", map[], Some(Profile(mail, al)));
  }
}
