/*
 * WhitelistManager: the whitelist file (a list of usernames and an on/off
 * flag) and the three operations that edit it. Saving the file after each
 * edit is disk I/O and is not modelled.
 */
module WhitelistManager {
  import opened Lists

  /** WhitelistFile: held in memory and rewritten after every edit. */
  class WhitelistFile {
    var useWhitelist: bool
    var whitelistedUsers: seq<string>

    /** A new file: whitelist off and empty. */
    constructor ()
      ensures !useWhitelist && whitelistedUsers == []
    {
      useWhitelist := false;
      whitelistedUsers := [];
    }
  }

  /** Appends the username; an already listed name is appended again. */
  method AddUserToWhitelist(wl: WhitelistFile, username: string)
    modifies wl`whitelistedUsers
    ensures wl.whitelistedUsers == old(wl.whitelistedUsers) + [username]
  {
    wl.whitelistedUsers := wl.whitelistedUsers + [username];
  }

  /** List.Remove: only the first occurrence goes. */
  method RemoveUserFromWhitelist(wl: WhitelistFile, username: string)
    modifies wl`whitelistedUsers
    ensures wl.whitelistedUsers == RemoveFirst(old(wl.whitelistedUsers), username)
  {
    wl.whitelistedUsers := RemoveFirst(wl.whitelistedUsers, username);
  }

  /** Negates the flag, so two toggles restore it. */
  method ToggleWhitelist(wl: WhitelistFile)
    modifies wl`useWhitelist
    ensures wl.useWhitelist == !old(wl.useWhitelist)
  {
    wl.useWhitelist := !wl.useWhitelist;
  }
}
