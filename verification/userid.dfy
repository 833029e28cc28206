// Session identity for requests (`backend/user_id.py`): a request's
// `session_UUID` cookie names its user; a request without one is given a
// UUID, and cookieless requests from one address share that UUID until a
// request from the address arrives with a cookie. The process-wide
// dictionary of cookieless addresses is the state of a `ClientIds` object;
// the lock around it is left out and each call taken as atomic. A fresh
// random UUID (`uuid4()`) is an argument.

module UserIds {
  import opened Types
  import opened Uuids

  /** The client's address, as the request reports it. */
  type Ip = string

  /** One request's outcome for the cookie table: the table after it, the user id, and the cookie set on the response. */
  datatype Step = Step(clients: map<Ip, Uuid>, id: Uuid, setCookie: Option<string>)

  /** `assign_new_ID`: the address's stored UUID, or the fresh one, stored; the cookie is set to it either way. */
  function Assign(clients: map<Ip, Uuid>, ip: Ip, newId: Uuid): (r: Step)
    ensures ip in r.clients && r.clients[ip] == r.id
    ensures ip in clients ==> r.id == clients[ip] && r.clients == clients
    ensures ip !in clients ==> r.id == newId && r.clients.Keys == clients.Keys + {ip}
    ensures r.setCookie == Some(Render(r.id))
  {
    if ip in clients then Step(clients, clients[ip], Some(Render(clients[ip])))
    else Step(clients[ip := newId], newId, Some(Render(newId)))
  }

  /**
   * `get_user_id`: without a cookie, `Assign`. With one, the address is
   * forgotten first; then a cookie that reads as a UUID is the answer and
   * sets nothing, and one that does not is handled by `Assign`.
   */
  function Request(clients: map<Ip, Uuid>, ip: Ip, cookie: Option<string>, newId: Uuid): (r: Step)
    ensures r.setCookie.Some? <==> cookie.None? || ParseUuid(cookie.value).None?
    ensures r.setCookie.Some? ==> r.setCookie.value == Render(r.id)
    ensures cookie.Some? && ParseUuid(cookie.value).Some? ==> r.id == ParseUuid(cookie.value).value
    ensures cookie.Some? && ParseUuid(cookie.value).None? ==> r.id == newId
    ensures cookie.Some? ==> (ip in r.clients <==> ParseUuid(cookie.value).None?)
    ensures forall other :: other != ip ==> (other in r.clients <==> other in clients)
  {
    match cookie
    case None => Assign(clients, ip, newId)
    case Some(c) =>
      var forgotten := clients - {ip};
      match ParseUuid(c)
      case Some(u) => Step(forgotten, u, None)
      case None => Assign(forgotten, ip, newId)
  }

  /** Two cookieless requests from one address get the same UUID, whatever the second newId value. */
  lemma CookielessRequestsAgree(clients: map<Ip, Uuid>, ip: Ip, new1: Uuid, new2: Uuid)
    ensures var first := Request(clients, ip, None, new1);
            Request(first.clients, ip, None, new2).id == first.id
    ensures Request(Request(clients, ip, None, new1).clients, ip, None, new2).clients == Request(clients, ip, None, new1).clients
  {
  }

  /**
   * Following the cookie: the cookie a cookieless request receives reads
   * back as the same UUID, so the next request that carries it is that
   * user, sets no cookie, and takes the address out of the table.
   */
  lemma CookieIdentifiesUser(clients: map<Ip, Uuid>, ip: Ip, newId: Uuid, later: Uuid)
    ensures var first := Request(clients, ip, None, newId);
            var second := Request(first.clients, ip, first.setCookie, later);
            second.id == first.id && second.setCookie.None? && ip !in second.clients
  {
    var first := Request(clients, ip, None, newId);
    ParseRender(first.id);
  }

  /** The address table shared by all requests of the server process. */
  class ClientIds {
    var noCookieClients: map<Ip, Uuid>

    constructor ()
      ensures noCookieClients == map[]
    {
      noCookieClients := map[];
    }

    /** `assign_new_ID`. */
    method AssignNewId(ip: Ip, newId: Uuid) returns (id: Uuid, setCookie: string)
      modifies this
      ensures Assign(old(noCookieClients), ip, newId) == Step(noCookieClients, id, Some(setCookie))
    {
      if ip in noCookieClients {
        id := noCookieClients[ip];
      } else {
        id := newId;
        noCookieClients := noCookieClients[ip := id];
      }
      setCookie := Render(id);
    }

    /** `get_user_id`. */
    method GetUserId(ip: Ip, sessionCookie: Option<string>, newId: Uuid) returns (id: Uuid, setCookie: Option<string>)
      modifies this
      ensures Request(old(noCookieClients), ip, sessionCookie, newId) == Step(noCookieClients, id, setCookie)
    {
      if sessionCookie.None? {
        var c;
        id, c := AssignNewId(ip, newId);
        setCookie := Some(c);
      } else {
        if ip in noCookieClients {
          noCookieClients := noCookieClients - {ip};
        }
        var parsed := ParseUuid(sessionCookie.value);
        if parsed.Some? {
          id := parsed.value;
          setCookie := None;
        } else {
          var c;
          id, c := AssignNewId(ip, newId);
          setCookie := Some(c);
        }
      }
    }
  }
}
