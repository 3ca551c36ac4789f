/**
 The browser's cookie jar as the server actions see it through Next.js's
 `cookies()`: one value and one attribute set per cookie name.
 */
module Cookies {

  datatype Attributes = Attributes(path: string, sameSite: string, secure: bool, httpOnly: bool)

  datatype Cookie = Cookie(value: string, attrs: Attributes)

  type Jar = map<string, Cookie>

  /** The name under which the session secret is kept. */
  const SessionCookieName: string := "appwrite-session"

  /** The fixed policy the session cookie is written with: whole origin,
      same-site strict, HTTPS only, hidden from page scripts. */
  const SessionPolicy: Attributes := Attributes("/", "strict", true, true)

  /** `cookies().set(name, value, attrs)`: the named cookie is replaced, every
      other cookie stays as it was. */
  function SetCookie(jar: Jar, name: string, value: string, attrs: Attributes): (r: Jar)
    ensures name in r && r[name] == Cookie(value, attrs)
    ensures r - {name} == jar - {name}
  {
    jar[name := Cookie(value, attrs)]
  }

  /** `cookies().delete(name)`: the named cookie is gone, every other cookie
      stays as it was; deleting an absent cookie changes nothing. */
  function DeleteCookie(jar: Jar, name: string): (r: Jar)
    ensures name !in r
    ensures r - {name} == jar - {name}
    ensures name !in jar ==> r == jar
  {
    jar - {name}
  }
}
