/** The authentication provider: a flag initialised from browser storage,
    the user profile derived from the flag, and the login and logout
    operations that change both. */
module Auth {
  import opened Wrappers

  datatype User = User(username: string, role: string, name: string, email: string, lastLogin: string)

  const StorageKey: string := "isAuthenticated"

  /** The hard-coded profile; the login time is the caller's clock. */
  function AdminUser(lastLogin: string): User {
    User("admin", "Administrator", "Admin User", "admin@example.com", lastLogin)
  }

  /** `localStorage.getItem('isAuthenticated') === 'true'`. */
  predicate StoredAuthenticated(storage: map<string, string>) {
    StorageKey in storage && storage[StorageKey] == "true"
  }

  /** The only credentials `login` accepts. */
  predicate ValidCredentials(username: string, password: string) {
    username == "admin" && password == "admin"
  }

  class AuthProvider {
    var storage: map<string, string>
    var isAuthenticated: bool
    var user: Option<User>

    /** The flag agrees with storage. */
    predicate FlagMatchesStorage()
      reads this
    {
      isAuthenticated == StoredAuthenticated(storage)
    }

    /** The user profile agrees with the flag, as the first effect leaves it. */
    predicate UserMatchesFlag()
      reads this
    {
      user.Some? <==> isAuthenticated
    }

    /** The first render: the flag read from storage, and no user yet. */
    constructor (initialStorage: map<string, string>)
      ensures storage == initialStorage
      ensures isAuthenticated == StoredAuthenticated(initialStorage)
      ensures user == None
      ensures FlagMatchesStorage()
    {
      storage := initialStorage;
      isAuthenticated := StoredAuthenticated(initialStorage);
      user := None;
    }

    /** The effect that runs whenever the flag changes. */
    method SyncUser(lastLogin: string)
      modifies this
      ensures user == (if isAuthenticated then Some(AdminUser(lastLogin)) else None)
      ensures isAuthenticated == old(isAuthenticated) && storage == old(storage)
      ensures UserMatchesFlag()
    {
      if isAuthenticated {
        user := Some(AdminUser(lastLogin));
      } else {
        user := None;
      }
    }

    /** `checkAuth`, run on mount and on every storage event. */
    method CheckAuth()
      modifies this
      ensures isAuthenticated == StoredAuthenticated(storage)
      ensures storage == old(storage) && user == old(user)
      ensures FlagMatchesStorage()
    {
      isAuthenticated := StoredAuthenticated(storage);
    }

    /** `login`: the admin credentials set the storage key and the flag;
        anything else changes nothing. */
    method Login(username: string, password: string) returns (ok: bool)
      modifies this
      ensures ok <==> ValidCredentials(username, password)
      ensures ok ==> storage == old(storage)[StorageKey := "true"] && isAuthenticated && FlagMatchesStorage()
      ensures !ok ==> storage == old(storage) && isAuthenticated == old(isAuthenticated)
      ensures user == old(user)
    {
      if username == "admin" && password == "admin" {
        storage := storage[StorageKey := "true"];
        isAuthenticated := true;
        return true;
      }
      return false;
    }

    /** `logout`: the key removed, the flag and the user cleared. */
    method Logout()
      modifies this
      ensures storage == old(storage) - {StorageKey}
      ensures !isAuthenticated && user == None
      ensures FlagMatchesStorage() && UserMatchesFlag()
    {
      storage := storage - {StorageKey};
      isAuthenticated := false;
      user := None;
    }
  }

  /** A whole session: mount with the given storage, try to log in, let
      the effect run, then log out. A user is shown after the login attempt
      exactly when the credentials were right or storage already said so;
      after logout nobody is signed in and the key is gone. */
  method Session(initialStorage: map<string, string>, username: string, password: string, lastLogin: string)
    returns (loggedIn: bool, userShown: bool, signedInAfterLogout: bool, keyAfterLogout: bool)
    ensures loggedIn <==> ValidCredentials(username, password)
    ensures userShown <==> loggedIn || StoredAuthenticated(initialStorage)
    ensures !signedInAfterLogout && !keyAfterLogout
  {
    var provider := new AuthProvider(initialStorage);
    provider.CheckAuth();
    provider.SyncUser(lastLogin);
    loggedIn := provider.Login(username, password);
    provider.SyncUser(lastLogin);
    userShown := provider.user.Some?;
    provider.Logout();
    signedInAfterLogout := provider.isAuthenticated;
    keyAfterLogout := StorageKey in provider.storage;
  }
}
