/** The chat client's top-level state: who is logged in, the message list it
    shows and the names of the users currently typing, as the socket events
    and the login and logout handlers update them. The browser's
    localStorage entry `chatUsername` is the field `savedUsername`. */
module App {
  import opened JsText
  import opened Protocol

  /** The `userTyping` update: `prev` with `sender` appended unless it is
      already there. A missing sender is a value like any other. */
  function WithTypingUser(prev: seq<Option<string>>, sender: Option<string>): (r: seq<Option<string>>)
    ensures sender in r
    ensures forall u :: u in r <==> u in prev || u == sender
    ensures prev <= r && |r| <= |prev| + 1
    ensures sender in prev ==> r == prev
    ensures NoDuplicates(prev) ==> NoDuplicates(r)
  {
    if sender in prev then prev else prev + [sender]
  }

  /** Announcing the same typist twice changes nothing the second time. */
  lemma WithTypingUserIdempotent(prev: seq<Option<string>>, sender: Option<string>)
    ensures WithTypingUser(WithTypingUser(prev, sender), sender) == WithTypingUser(prev, sender)
  {
  }

  /** Typists are listed in the order they were first announced: announcing
      `a` then `b` puts `a` before `b` when neither was listed. */
  lemma WithTypingUserOrder(prev: seq<Option<string>>, a: Option<string>, b: Option<string>)
    requires a != b && a !in prev && b !in prev
    ensures WithTypingUser(WithTypingUser(prev, a), b) == prev + [a, b]
  {
  }

  class ChatClient {
    var username: string
    var isLoggedIn: bool
    var messages: seq<Message>
    /** The senders of the `userTyping` notices since the last
        `userStoppedTyping`, each once. */
    var typingUsers: seq<Option<string>>
    /** localStorage's `chatUsername`. */
    var savedUsername: Option<string>

    ghost predicate Valid()
      reads this
    {
      NoDuplicates(typingUsers)
    }

    constructor (saved: Option<string>)
      ensures Valid()
      ensures username == [] && !isLoggedIn && messages == [] && typingUsers == []
      ensures savedUsername == saved
    {
      username := [];
      isLoggedIn := false;
      messages := [];
      typingUsers := [];
      savedUsername := saved;
    }

    /** The mount effect: a saved, non-empty name logs straight in. */
    method RestoreSession()
      requires Valid()
      modifies this`username, this`isLoggedIn
      ensures Valid()
      ensures Falsy(savedUsername) ==> username == old(username) && isLoggedIn == old(isLoggedIn)
      ensures !Falsy(savedUsername) ==> username == savedUsername.value && isLoggedIn
    {
      if !Falsy(savedUsername) {
        username := savedUsername.value;
        isLoggedIn := true;
      }
    }

    /** `previousMessages`: the history replaces the list. */
    method OnPreviousMessages(list: seq<Message>)
      requires Valid()
      modifies this`messages
      ensures Valid()
      ensures messages == list
    {
      messages := list;
    }

    /** `newMessage`: the message goes at the end of the list. */
    method OnNewMessage(m: Message)
      requires Valid()
      modifies this`messages
      ensures Valid()
      ensures messages == old(messages) + [m]
    {
      messages := messages + [m];
    }

    /** `userTyping`: the sender is listed once. */
    method OnUserTyping(data: Payload)
      requires Valid()
      modifies this`typingUsers
      ensures Valid()
      ensures typingUsers == WithTypingUser(old(typingUsers), data.sender)
    {
      typingUsers := WithTypingUser(typingUsers, data.sender);
    }

    /** `userStoppedTyping`: one user stopping clears the whole list. */
    method OnUserStoppedTyping()
      requires Valid()
      modifies this`typingUsers
      ensures Valid()
      ensures typingUsers == []
    {
      typingUsers := [];
    }

    /** `handleLogin`: a name with a non-space character logs in under its
        trimmed form and is saved; any other name changes nothing. */
    method HandleLogin(name: string)
      requires Valid()
      modifies this`username, this`isLoggedIn, this`savedUsername
      ensures Valid()
      ensures Blank(name) ==>
                username == old(username) && isLoggedIn == old(isLoggedIn) && savedUsername == old(savedUsername)
      ensures !Blank(name) ==>
                username == Trim(name) && username != [] && isLoggedIn && savedUsername == Some(Trim(name))
    {
      if !Blank(name) {
        username := Trim(name);
        isLoggedIn := true;
        savedUsername := Some(Trim(name));
      }
    }

    /** `handleLogout`: logs out, forgets the name and the messages and the
        saved name; the typing list is left as it was. */
    method HandleLogout()
      requires Valid()
      modifies this`username, this`isLoggedIn, this`messages, this`savedUsername
      ensures Valid()
      ensures !isLoggedIn && username == [] && messages == [] && savedUsername.None?
      ensures typingUsers == old(typingUsers)
    {
      isLoggedIn := false;
      username := [];
      messages := [];
      savedUsername := None;
    }
  }
}
