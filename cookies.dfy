/** The request's cookie jar: cookies by name, updated in place. */
module Cookies {
  import opened Wrappers

  datatype Cookie = Cookie(name: string, value: string, path: Option<string>, secure: bool, httpOnly: bool)

  /** A cookie with no attributes. */
  function PlainCookie(name: string, value: string): Cookie {
    Cookie(name, value, None, false, false)
  }

  class CookieJar {
    var cookies: map<string, Cookie>

    function Get(name: string): Option<Cookie>
      reads this
    {
      if name in cookies then Some(cookies[name]) else None
    }

    method Add(c: Cookie)
      modifies this
      ensures cookies == old(cookies)[c.name := c]
    {
      cookies := cookies[c.name := c];
    }

    method Remove(name: string)
      modifies this
      ensures cookies == old(cookies) - {name}
    {
      cookies := cookies - {name};
    }
  }
}
