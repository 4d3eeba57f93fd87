/**
 * The browser state the client shares between its parts: the session token
 * kept in local storage under 'habit-tracker-token', and the address the
 * window shows.
 */
module Browser {
  import opened Wrappers

  class Window {
    /** `localStorage.getItem('habit-tracker-token')`: None when nothing is stored. */
    var token: Option<string>
    /** `window.location.href`. */
    var location: string

    constructor (token: Option<string>, location: string)
      ensures this.token == token && this.location == location
    {
      this.token := token;
      this.location := location;
    }
  }
}
