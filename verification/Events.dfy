/** registry/event.go: a service event and its cached key. */
module Events {
  import opened Urls

  datatype EventType = Add | Del | Update | Other

  /** The state of a ServiceEvent; `key` is empty until the key is first asked for. */
  datatype Event = Event(action: EventType, service: Url, key: string, updated: bool)

  function KeyOf(e: Event): string {
    if e.key != "" then e.key else CacheKey(e.service)
  }

  function Refreshed(e: Event, u: Url): Event {
    e.(service := u, updated := true)
  }

  function Keyed(e: Event): Event {
    e.(key := KeyOf(e))
  }

  /** A key once handed out stays, whatever URL the event is given later. */
  lemma KeyIsCached(e: Event, u: Url)
    ensures KeyOf(e) != "" && KeyOf(Refreshed(Keyed(e), u)) == KeyOf(e)
  {
    assert |CacheKey(e.service)| >= |"&timestamp="| > 0;
  }

  lemma KeyedTwice(e: Event)
    ensures KeyOf(Keyed(e)) == KeyOf(e) && Keyed(Keyed(e)) == Keyed(e)
  {
    KeyIsCached(e, e.service);
  }

  class ServiceEvent {
    const action: EventType
    var service: Url
    var key: string
    var updated: bool

    ghost function State(): Event
      reads this
    {
      Event(action, service, key, updated)
    }

    constructor (action: EventType, service: Url)
      ensures State() == Event(action, service, "", false)
    {
      this.action, this.service, key, updated := action, service, "", false;
    }

    method Update(url: Url)
      modifies this
      ensures State() == Refreshed(old(State()), url)
    {
      service, updated := url, true;
    }

    method Key() returns (k: string)
      modifies this
      ensures k == KeyOf(old(State())) && State() == Keyed(old(State()))
    {
      if |key| > 0 {
        return key;
      }
      key := CacheKey(service);
      return key;
    }
  }
}
