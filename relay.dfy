/** The relay bot's message handler: direct messages from users are relayed
    to the staff channel unless the user is ignored or spamming, and staff
    commands in that channel edit the ignore list or reply to a user.
    Each `await` splits the handler into events: a relayed DM's delayed
    decrement is its own event, `Decay`. */
module Relay {
  import opened Builtins
  import opened Policy
  import opened Commands
  import Config

  /** Where a message arrives: a private (DM) channel, the configured staff
      channel, or any other channel. */
  datatype Place = Direct | StaffChannel | Elsewhere

  datatype Message = Message(author: string, place: Place, content: string)

  /** What handling a message sends out, in place of the platform calls. */
  datatype Effect =
    | NoAction                      // returned early, nothing sent
    | Dropped(user: string)         // DM from an ignored user
    | AutoIgnored(user: string)     // spam threshold reached: staff are told, the DM is not relayed
    | Relayed(user: string, content: string)
    | CommandFailed                 // the `IndexError` of a command without an argument
    | AlreadyIgnored(id: string)
    | NowIgnored(id: string)
    | NotIgnored(id: string)
    | NoLongerIgnored(id: string)
    | Replied(server: nat, user: string, contents: string, signedBy: Option<string>, repliesIgnored: bool)
    | NoMember(user: string)        // no server has a member with that id: nothing is sent

  /** Server `k` is the first, in the client's server order, that has a
      member with this id. */
  predicate FirstHolder(servers: seq<set<string>>, id: string, k: nat) {
    k < |servers| && id in servers[k] && forall j :: 0 <= j < k ==> id !in servers[j]
  }

  predicate NoHolder(servers: seq<set<string>>, id: string) {
    forall j :: 0 <= j < |servers| ==> id !in servers[j]
  }

  /** The reply route: the loop over the client's servers that stops at the
      first one where the member lookup succeeds. Each server is given as
      the set of its members' ids. */
  method FindMember(servers: seq<set<string>>, id: string) returns (found: Option<nat>)
    ensures found.Some? ==> FirstHolder(servers, id, found.value)
    ensures found.None? ==> NoHolder(servers, id)
  {
    var i := 0;
    while i < |servers|
      invariant 0 <= i <= |servers|
      invariant forall j :: 0 <= j < i ==> id !in servers[j]
    {
      if id in servers[i] {
        return Some(i);
      }
      i := i + 1;
    }
    return None;
  }

  /** Every user's counter is exactly the number of their relayed DMs still
      waiting for the decrement plus the number of times they were
      auto-ignored. */
  ghost predicate Balanced(counters: map<string, int>, pending: multiset<string>, unpaired: multiset<string>) {
    forall u :: Count(counters, u) == pending[u] + unpaired[u]
  }

  /** A relayed DM: one more pending decrement. */
  lemma BalancedRelay(counters: map<string, int>, pending: multiset<string>, unpaired: multiset<string>, user: string)
    requires Balanced(counters, pending, unpaired)
    ensures Balanced(Bump(counters, user), pending + multiset{user}, unpaired)
  {
  }

  /** An auto-ignore: one more increment that is never taken back. */
  lemma BalancedAutoIgnore(counters: map<string, int>, pending: multiset<string>, unpaired: multiset<string>, user: string)
    requires Balanced(counters, pending, unpaired)
    ensures Balanced(Bump(counters, user), pending, unpaired + multiset{user})
  {
  }

  /** A decay: the pending decrement is done; the user has a counter. */
  lemma BalancedDecay(counters: map<string, int>, pending: multiset<string>, unpaired: multiset<string>, user: string)
    requires Balanced(counters, pending, unpaired) && user in pending
    ensures user in counters
    ensures Balanced(Decay(counters, user), pending - multiset{user}, unpaired)
  {
    assert Count(counters, user) == pending[user] + unpaired[user];
  }

  class ModMail {
    /** The bot's own user id, and the settings read at start-up;
        `anonymous` is the `anonymous_staff` setting as read by
        `Config.StaffAnonymousAsWritten` (the program) or
        `Config.StaffAnonymous` (the corrected reading). */
    const botId: string
    const prefix: string
    const threshold: int
    const anonymous: bool

    /** `client.already_ready` */
    var ready: bool
    /** `ignored_users`, and what `ignored.json` holds */
    var ignored: seq<string>
    var saved: seq<string>
    /** `anti_spam_check` */
    var counters: map<string, int>
    /** One entry per relayed DM whose handler is still asleep before its
        decrement. */
    var pending: multiset<string>
    /** One entry per auto-ignore: an increment that is never taken back. */
    ghost var unpaired: multiset<string>

    /** Every write of the list reaches the file, and every counter is
        exactly its user's pending decrements plus its auto-ignores. */
    ghost predicate Valid()
      reads this
    {
      && saved == ignored
      && Balanced(counters, pending, unpaired)
    }

    /** Start-up: the settings, and the list loaded from `ignored.json`, or
        an empty list written to a new file when there is none. */
    constructor (botId: string, prefix: string, threshold: int, anonymous: bool,
                 stored: Option<seq<string>>)
      ensures Valid()
      ensures this.botId == botId && this.prefix == prefix && this.threshold == threshold
      ensures this.anonymous == anonymous
      ensures !ready
      ensures ignored == (if stored.Some? then stored.value else [])
      ensures counters == map[] && pending == multiset{}
    {
      this.botId := botId;
      this.prefix := prefix;
      this.threshold := threshold;
      this.anonymous := anonymous;
      ready := false;
      ignored := if stored.Some? then stored.value else [];
      saved := ignored;
      counters := map[];
      pending := multiset{};
      unpaired := multiset{};
    }

    /** `on_ready`: the first call finishes start-up, later ones return at
        once; either way the bot is ready afterwards. */
    method OnReady()
      requires Valid()
      modifies this`ready
      ensures Valid() && ready
    {
      if ready {
        return;
      }
      ready := true;
    }

    /** What a DM from a user other than the bot, once start-up has
        finished, does: an ignored user's DM changes nothing; any other DM
        raises its author's counter and is then either relayed or, at the
        threshold, gets its author auto-ignored instead. */
    twostate predicate DirectStep(m: Message, e: Effect)
      reads this
    {
      if m.author in old(ignored) then
        e == Dropped(m.author) && unchanged(this)
      else
        && counters == Bump(old(counters), m.author)
        && if Count(counters, m.author) >= threshold then
             && e == AutoIgnored(m.author)
             && ignored == old(ignored) + [m.author]
             && pending == old(pending)
           else
             && e == Relayed(m.author, m.content)
             && ignored == old(ignored)
             && pending == old(pending) + multiset{m.author}
    }

    /** What a message in the staff channel does: a command edits the ignore
        list or picks the server to reply through; the counters are left
        alone. */
    twostate predicate StaffStep(m: Message, servers: seq<set<string>>, e: Effect)
      reads this
    {
      && counters == old(counters) && pending == old(pending)
      && match ParseCommand(m.content, prefix)
         case NotCommand => e == NoAction && ignored == old(ignored)
         case MissingArgument(_) => e == CommandFailed && ignored == old(ignored)
         case Command(name, contents) =>
           var id := FirstToken(contents);
           if name == "ignore" then
             && ignored == Ignore(old(ignored), id)
             && e == (if id in old(ignored) then AlreadyIgnored(id) else NowIgnored(id))
           else if name == "unignore" then
             && ignored == Unignore(old(ignored), id)
             && e == (if id in old(ignored) then NoLongerIgnored(id) else NotIgnored(id))
           else
             ignored == old(ignored) && ReplyStep(m.author, name, contents, servers, e)
    }

    /** A reply to `user`: it goes through the first server that has that
        member, signed by the staff member unless replies are anonymous, and
        staff are told when the user's own messages are being ignored; with
        no such server nothing is sent. */
    predicate ReplyStep(staff: string, user: string, contents: string, servers: seq<set<string>>, e: Effect)
      reads this
    {
      && (e.Replied? || e == NoMember(user))
      && (e.Replied? ==>
            && FirstHolder(servers, user, e.server)
            && e.user == user && e.contents == contents
            && e.signedBy == (if anonymous then None else Some(staff))
            && e.repliesIgnored == (user in ignored))
      && (e.NoMember? ==> NoHolder(servers, user))
    }

    /** `on_message` up to its first `await` on the relay path. The bot's
        own messages, anything before start-up has finished and messages
        in other channels change nothing. */
    method OnMessage(m: Message, servers: seq<set<string>>) returns (e: Effect)
      requires Valid()
      modifies this
      ensures Valid() && ready == old(ready)
      ensures NoDuplicates(old(ignored)) ==> NoDuplicates(ignored)
      ensures m.author == botId || !ready || m.place.Elsewhere? ==> e == NoAction && unchanged(this)
      ensures m.author != botId && ready && m.place.Direct? ==> DirectStep(m, e)
      ensures m.author != botId && ready && m.place.StaffChannel? ==> StaffStep(m, servers, e)
    {
      if m.author == botId || !ready {
        return NoAction;
      }
      match m.place
      case Direct =>
        e := OnDirect(m);
      case StaffChannel =>
        e := OnStaff(m, servers);
      case Elsewhere =>
        e := NoAction;
    }

    /** The DM branch of `on_message`. */
    method OnDirect(m: Message) returns (e: Effect)
      requires Valid()
      modifies this`ignored, this`saved, this`counters, this`pending, this`unpaired
      ensures Valid() && ready == old(ready)
      ensures NoDuplicates(old(ignored)) ==> NoDuplicates(ignored)
      ensures DirectStep(m, e)
    {
      if m.author in ignored {
        return Dropped(m.author);
      }
      if Count(Bump(counters, m.author), m.author) >= threshold {
        AutoIgnore(m.author);
        return AutoIgnored(m.author);
      }
      Relay(m.author);
      e := Relayed(m.author, m.content);
    }

    /** A DM that reaches the threshold: the author's counter goes up, they
        are appended to the list and the list is saved. */
    method AutoIgnore(user: string)
      requires Valid() && user !in ignored
      modifies this`ignored, this`saved, this`counters, this`unpaired
      ensures Valid()
      ensures counters == Bump(old(counters), user)
      ensures ignored == old(ignored) + [user] == Ignore(old(ignored), user)
      ensures NoDuplicates(old(ignored)) ==> NoDuplicates(ignored)
    {
      BalancedAutoIgnore(counters, pending, unpaired, user);
      counters := Bump(counters, user);
      ignored := ignored + [user];
      saved := ignored;
      unpaired := unpaired + multiset{user};
    }

    /** A DM below the threshold: the author's counter goes up and its decay
        is pending. */
    method Relay(user: string)
      requires Valid()
      modifies this`counters, this`pending
      ensures Valid()
      ensures counters == Bump(old(counters), user)
      ensures pending == old(pending) + multiset{user}
    {
      BalancedRelay(counters, pending, unpaired, user);
      counters := Bump(counters, user);
      pending := pending + multiset{user};
    }

    /** The staff-channel branch of `on_message`. */
    method OnStaff(m: Message, servers: seq<set<string>>) returns (e: Effect)
      requires Valid()
      modifies this`ignored, this`saved
      ensures Valid()
      ensures NoDuplicates(old(ignored)) ==> NoDuplicates(ignored)
      ensures StaffStep(m, servers, e)
    {
      match ParseCommand(m.content, prefix)
      case NotCommand =>
        e := NoAction;
      case MissingArgument(_) =>
        e := CommandFailed;
      case Command(name, contents) =>
        if name == "ignore" {
          e := IgnoreCommand(FirstToken(contents));
        } else if name == "unignore" {
          e := UnignoreCommand(FirstToken(contents));
        } else {
          e := ReplyCommand(m.author, name, contents, servers);
        }
    }

    /** Any other command name is taken as a user id to reply to. */
    method ReplyCommand(staff: string, user: string, contents: string, servers: seq<set<string>>)
      returns (e: Effect)
      ensures ReplyStep(staff, user, contents, servers, e)
    {
      var found := FindMember(servers, user);
      match found
      case Some(k) =>
        e := Replied(k, user, contents, if anonymous then None else Some(staff), user in ignored);
      case None =>
        e := NoMember(user);
    }

    /** `ignore <id>`: appends and saves the id unless it is already there. */
    method IgnoreCommand(id: string) returns (e: Effect)
      requires Valid()
      modifies this`ignored, this`saved
      ensures Valid()
      ensures ignored == Ignore(old(ignored), id)
      ensures e == (if id in old(ignored) then AlreadyIgnored(id) else NowIgnored(id))
    {
      if id in ignored {
        e := AlreadyIgnored(id);
      } else {
        ignored := ignored + [id];
        saved := ignored;
        e := NowIgnored(id);
      }
    }

    /** `unignore <id>`: removes and saves the id if it is there. */
    method UnignoreCommand(id: string) returns (e: Effect)
      requires Valid()
      modifies this`ignored, this`saved
      ensures Valid()
      ensures ignored == Unignore(old(ignored), id)
      ensures e == (if id in old(ignored) then NoLongerIgnored(id) else NotIgnored(id))
    {
      if id !in ignored {
        e := NotIgnored(id);
      } else {
        ignored := RemoveFirst(ignored, id);
        saved := ignored;
        e := NoLongerIgnored(id);
      }
    }

    /** The end of the relay path: after the configured delay the user's
        counter is taken down by one. Only a relayed DM still asleep can
        resume here. */
    method Decay(user: string)
      requires Valid() && user in pending
      modifies this`counters, this`pending
      ensures Valid()
      ensures counters == Policy.Decay(old(counters), user)
      ensures pending == old(pending) - multiset{user}
      ensures Count(counters, user) >= unpaired[user]
    {
      BalancedDecay(counters, pending, unpaired, user);
      counters := Policy.Decay(counters, user);
      pending := pending - multiset{user};
    }
  }
  /** A user who writes twice before the decay, with a threshold of 2: the
      first DM is relayed, the second gets them auto-ignored and a third is
      dropped. When the first DM's decay has run, the auto-ignore's
      increment is still counted: the counter stays one below the
      threshold. */
  method RepeatSpammer(servers: seq<set<string>>)
  {
    var bot := new ModMail("bot", "!", 2, Config.StaffAnonymous("true"), None);
    bot.OnReady();
    var dm := Message("42", Direct, "hello");
    assert dm.author != bot.botId;
    var e := bot.OnMessage(dm, servers);
    assert e == Relayed("42", "hello");
    e := bot.OnMessage(dm, servers);
    assert e == AutoIgnored("42") && bot.ignored == ["42"];
    e := bot.OnMessage(dm, servers);
    assert e == Dropped("42");
    assert "42" in bot.pending;
    bot.Decay("42");
    assert Count(bot.counters, "42") == 1;
    assert Count(bot.counters, "42") + 1 >= bot.threshold;
  }
}
