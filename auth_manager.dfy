/**
 * The credentials store of `core/auth_manager.py`: a text file holding the
 * user name on its first line and the password on its second.
 */
module Auth {
  import opened Wrappers
  import opened Text

  datatype Credentials = Credentials(username: string, password: string)

  /** The text `save_credentials` writes: the user name, a newline, the password. */
  function Serialize(username: string, password: string): (text: string)
    ensures '\n' !in username && '\n' !in password ==>
      |Lines(text)| == (if password == [] then 1 else 2) && Lines(text)[0] == username + "\n"
  {
    var text := username + "\n" + password;
    if '\n' in username || '\n' in password then text
    else LinesOfJoin(username, password); text
  }

  /**
   * `get_credentials` on the stored file (`None` when it does not exist):
   * `(None, None)` becomes `None`.
   */
  function ReadCredentials(stored: Option<string>): (r: Option<Credentials>)
    ensures !NonBlank(stored) ==> r == None
    ensures r.Some? <==> NonBlank(stored) && |Lines(stored.value)| >= 2
  {
    if !NonBlank(stored) then None
    else
      var lines := Lines(stored.value);
      if |lines| >= 2 then Some(Credentials(Strip(lines[0]), Strip(lines[1]))) else None
  }

  lemma AllSpaceJoin(u: string, p: string)
    ensures AllSpace(u + "\n" + p) <==> AllSpace(u) && AllSpace(p)
  {
    var s := u + "\n" + p;
    if AllSpace(u) && AllSpace(p) {
      forall i | 0 <= i < |s| ensures IsSpace(s[i]) {
        if i < |u| { assert s[i] == u[i]; }
        else if i > |u| { assert s[i] == p[i - |u| - 1]; }
      }
    }
    if AllSpace(s) {
      forall i | 0 <= i < |u| ensures IsSpace(u[i]) { assert s[i] == u[i]; }
      forall i | 0 <= i < |p| ensures IsSpace(p[i]) { assert s[|u| + 1 + i] == p[i]; }
    }
  }

  /**
   * Saving then reading back, for newline-free values: the stripped user
   * name and password come back exactly when the password is non-empty and
   * the two are not both blank; otherwise the read yields `(None, None)`.
   */
  lemma SaveThenRead(username: string, password: string)
    requires '\n' !in username && '\n' !in password
    requires '\r' !in username && '\r' !in password
    ensures ReadCredentials(Some(Serialize(username, password))) ==
      if password != [] && !(AllSpace(username) && AllSpace(password))
      then Some(Credentials(Strip(username), Strip(password)))
      else None
  {
    var s := Serialize(username, password);
    AllSpaceJoin(username, password);
    assert NonBlank(Some(s)) <==> !(AllSpace(username) && AllSpace(password));
    LinesOfJoin(username, password);
    StripSpaceSuffix(username, '\n');
  }

  /**
   * An empty password is saved as the single line `username + "\n"`: the
   * file counts as holding credentials, yet reading them yields `(None, None)`.
   */
  lemma EmptyPasswordUnreadable(username: string)
    requires '\n' !in username && '\r' !in username && !AllSpace(username)
    ensures NonBlank(Some(Serialize(username, "")))
    ensures ReadCredentials(Some(Serialize(username, ""))) == None
  {
    AllSpaceJoin(username, "");
    SaveThenRead(username, "");
  }

  /** Values without newlines and without surrounding whitespace read back unchanged. */
  lemma SaveThenReadExact(username: string, password: string)
    requires '\n' !in username && '\n' !in password
    requires '\r' !in username && '\r' !in password
    requires password != []
    requires username == [] || (!IsSpace(username[0]) && !IsSpace(username[|username| - 1]))
    requires !IsSpace(password[0]) && !IsSpace(password[|password| - 1])
    ensures ReadCredentials(Some(Serialize(username, password))) == Some(Credentials(username, password))
  {
    SaveThenRead(username, password);
    StripUnchanged(username);
    StripUnchanged(password);
  }

  /** Lines after the second are ignored: only the first two lines are read. */
  lemma ReadIgnoresLaterLines(username: string, password: string, rest: string)
    requires '\n' !in username && '\n' !in password
    requires '\r' !in username && '\r' !in password
    requires NonBlank(Some(username + "\n" + password + "\n" + rest))
    ensures ReadCredentials(Some(username + "\n" + password + "\n" + rest)) ==
      Some(Credentials(Strip(username), Strip(password)))
  {
    assert username + "\n" + password + "\n" + rest == username + "\n" + (password + "\n" + rest);
    LinesOfHead(username, password + "\n" + rest);
    LinesOfHead(password, rest);
    StripSpaceSuffix(username, '\n');
    StripSpaceSuffix(password, '\n');
  }

  /** The `AuthManager` object: the content of `credentials.txt`, `None` when the file is absent. */
  class AuthManager {
    var file: Option<string>

    constructor (file: Option<string>)
      ensures this.file == file
    {
      this.file := file;
    }

    /** `has_credentials`: the file exists and holds a character other than whitespace. */
    function HasCredentials(): (b: bool)
      reads this
      ensures b <==> file.Some? && exists i :: 0 <= i < |file.value| && !IsSpace(file.value[i])
    {
      NonBlank(file)
    }

    /** `get_credentials`: nothing unless the file holds credentials. */
    function GetCredentials(): (r: Option<Credentials>)
      reads this
      ensures r.Some? ==> HasCredentials()
      ensures r.Some? <==> HasCredentials() && |Lines(file.value)| >= 2
    {
      ReadCredentials(file)
    }

    /** `save_credentials`: overwrites the file with the two values. */
    method SaveCredentials(username: string, password: string) returns (ok: bool)
      modifies this
      ensures ok && file == Some(Serialize(username, password))
    {
      file := Some(Serialize(username, password));
      ok := true;
    }

    /** `clear_credentials`: removes the file whether or not it exists and reports success. */
    method ClearCredentials() returns (ok: bool)
      modifies this
      ensures ok && file == None
      ensures !HasCredentials() && GetCredentials() == None
    {
      file := None;
      ok := true;
    }
  }
}
