/**
 * `segmentIdentify` and `segmentTrack`: how the outgoing analytics calls are
 * shaped. The analytics client itself is foreign; a call to it is recorded
 * as an Event value.
 */
module Tracking {
  import opened Wrappers
  import opened JsNumbers
  import opened Identity

  /** A property value: the code only ever passes strings and the literal `true`. */
  datatype Value = Str(s: JsString) | Bool(b: bool)

  /** A plain JavaScript object used as a property bag. */
  type Props = map<string, Value>

  /** The logged-in visitor. */
  datatype Profile = Profile(email: JsString, name: JsString)

  /** The catalogue fields of a product that the code reads. */
  datatype Product = Product(id: JsString, name: JsString, price: JsString, category: JsString)

  /** One call into the analytics client: `identify(userId, traits)` or `track(event, properties)`. */
  datatype Event =
    | Identify(userId: Option<JsString>, traits: Props)
    | Track(event: string, properties: Props)

  const UserIdKey: string := "userId"

  /** JavaScript truthiness of a string-or-null value: a non-empty string. */
  predicate Truthy(v: Option<JsString>) {
    v.Some? && v.value != []
  }

  /** `props.email`, read as a string (absent when it is missing). */
  function EmailProp(props: Props): (r: Option<JsString>)
    ensures r.Some? <==> "email" in props && props["email"].Str?
    ensures r.Some? ==> props["email"] == Str(r.value)
  {
    if "email" in props && props["email"].Str? then Some(props["email"].s) else None
  }

  /** `profile?.email`. */
  function ProfileEmail(profile: Option<Profile>): (r: Option<JsString>)
    ensures r.Some? <==> profile.Some?
    ensures r.Some? ==> r.value == profile.value.email
  {
    if profile.Some? then Some(profile.value.email) else None
  }

  /** `{ email, name }` as built for identify traits and the login track. */
  function EmailAndName(email: JsString, name: JsString): Props {
    map["email" := Str(email), "name" := Str(name)]
  }

  /** The userId chosen by `segmentTrack`: the event's own email first, then the current profile's, else none. */
  function ChooseUserId(props: Props, profile: Option<Profile>): (r: Option<JsString>)
    ensures Truthy(EmailProp(props)) ==> r == UserIdFor(EmailProp(props))
    ensures !Truthy(EmailProp(props)) && Truthy(ProfileEmail(profile)) ==> r == UserIdFor(ProfileEmail(profile))
    ensures r.Some? <==> Truthy(EmailProp(props)) || Truthy(ProfileEmail(profile))
    ensures Truthy(r) <==> r.Some?
  {
    if Truthy(EmailProp(props)) then UserIdFor(EmailProp(props))
    else if Truthy(ProfileEmail(profile)) then UserIdFor(ProfileEmail(profile))
    else None
  }

  /** The object handed to `analytics.track`: a copy of props, with `userId` set when one was found. */
  function Payload(props: Props, userId: Option<JsString>): (r: Props)
    ensures forall k :: k in props && k != UserIdKey ==> k in r && r[k] == props[k]
    ensures Truthy(userId) ==> r.Keys == props.Keys + {UserIdKey} && r[UserIdKey] == Str(userId.value)
    ensures !Truthy(userId) ==> r == props
  {
    if Truthy(userId) then props[UserIdKey := Str(userId.value)] else props
  }

  /** The event `segmentTrack(event, props)` sends while `profile` is the current profile. */
  function TrackEvent(event: string, props: Props, profile: Option<Profile>): (e: Event)
    ensures e.Track? && e.event == event
    ensures UserIdKey !in props ==>
      (UserIdKey in e.properties <==> Truthy(EmailProp(props)) || Truthy(ProfileEmail(profile)))
  {
    Track(event, Payload(props, ChooseUserId(props, profile)))
  }

  /** Apart from `userId`, the tracked properties are exactly the caller's. */
  lemma TrackKeepsProps(event: string, props: Props, profile: Option<Profile>)
    ensures TrackEvent(event, props, profile).properties - {UserIdKey} == props - {UserIdKey}
  {
    var out := TrackEvent(event, props, profile).properties;
    assert forall k :: k in out - {UserIdKey} <==> k in props - {UserIdKey};
  }

  /** The event `segmentIdentify({ email, name })` sends. */
  function IdentifyEvent(email: JsString, name: JsString): (e: Event)
    ensures e.Identify? && e.traits == EmailAndName(email, name)
    ensures e.userId == UserIdFor(Some(email))
    ensures e.userId.Some? <==> email != []
  {
    Identify(UserIdFor(Some(email)), EmailAndName(email, name))
  }

  /** An email in the event's own properties decides the userId; the current profile is not consulted. */
  lemma PropsEmailTakesPrecedence(event: string, props: Props, p: Option<Profile>, q: Option<Profile>)
    requires Truthy(EmailProp(props))
    ensures ChooseUserId(props, p) == ChooseUserId(props, q)
    ensures TrackEvent(event, props, p).properties[UserIdKey] == Str(UserIdFor(EmailProp(props)).value)
  {
  }

  /** Without an email of its own, an event is attributed to the profile, or to nobody without one. */
  lemma ProfileFallback(props: Props, profile: Option<Profile>)
    requires !Truthy(EmailProp(props))
    ensures profile.None? ==> ChooseUserId(props, profile) == None
    ensures profile.Some? && profile.value.email != [] ==>
      ChooseUserId(props, profile) == UserIdFor(Some(profile.value.email))
  {
  }
}
