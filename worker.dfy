/**
 * The worker `TCWorker`: one connection attempt to the realm and world servers
 * (`connect`), and the chat-event handler that filters events and appends the
 * qualifying ones to the message store (`_handle_message_chat`).
 *
 * The game-protocol library is outside the model. What it does during one
 * attempt (the realm join finishing in time, the authentication error it
 * reports, the realm list, the roster wait, the character login and the login
 * completion wait) is an input value, `Outcomes`.
 */
module Worker {
  import opened Options
  import Store
  import Sanitizer

  // ---------------------------------------------------------------------
  // Configuration and library outcomes
  // ---------------------------------------------------------------------

  /** The settings the worker reads: realm name, account name, character name,
      channel name, and the expiry of stored messages. */
  datatype Config = Config(realm: string, username: string, character: string, channel: string, ttl: nat)

  /** The two chat opcodes the handler is registered for, and any other. */
  datatype Opcode = MessageChat | GmMessageChat | OtherOpcode(code: int)

  /** The channel-chat message type, and any other. */
  datatype ChatType = ChannelChat | OtherChatType(code: int)

  /** The chat payload: channel name, sender name and message body. */
  datatype ChatData = ChatData(channel: string, source: string, msg: string)

  /** How a blocking wait on the world server ends. */
  datatype WaitOutcome = Arrived | TimedOut | StreamBroken

  /** The errors the realm session reports once it is done. */
  datatype RealmError = LogonChallengeError | LogonProofError | StreamBrokenError | CryptoError

  /** An entry of the realm list. */
  datatype RealmInfo = RealmInfo(host: string, port: int, id: int)

  /** How the realm session ends: not done within the 60-second join, done with
      an error, or done with the realm list and the session key. */
  datatype RealmOutcome =
    | JoinTimedOut
    | AuthFailed(error: RealmError)
    | RealmsListed(realms: map<string, RealmInfo>, sessionKey: seq<int>)

  datatype LoginOutcome = LoggedIn | BadPlayer

  /** What the library does at each stage of one connection attempt. Stages
      after the first failing one are never reached. */
  datatype Outcomes = Outcomes(realm: RealmOutcome, roster: WaitOutcome, login: LoginOutcome, loginComplete: WaitOutcome)

  /** A world session: where it connects, as whom, the channel it has joined
      and the opcodes whose events reach the handler. */
  datatype Session = Session(host: string, port: int, account: string, sessionKey: seq<int>, realmId: int,
                             joined: string, handlers: set<Opcode>)

  /** The result of one attempt, one variant per way it can end. */
  datatype ConnectResult =
    | Established(session: Session)
    | RealmTimeout
    | RealmAuthFailed
    | RealmNotFound
    | WorldTimeout
    | UnknownCharacter
    | LoginTimeout

  /** The library session an attempt shuts down on its way out. */
  datatype Teardown = NoTeardown | RealmStopped | WorldDisconnected

  // ---------------------------------------------------------------------
  // The connection attempt, as a function of the outcomes
  // ---------------------------------------------------------------------

  /** The session of a fully successful attempt: opened from the configured
      realm's list entry, joined to the configured channel, with the handler
      registered for both chat opcodes. */
  function OpenedSession(cfg: Config, info: RealmInfo, key: seq<int>): Session {
    Session(info.host, info.port, cfg.username, key, info.id, cfg.channel, {MessageChat, GmMessageChat})
  }

  function Attempt(cfg: Config, o: Outcomes): ConnectResult {
    match o.realm
    case JoinTimedOut => RealmTimeout
    case AuthFailed(_) => RealmAuthFailed
    case RealmsListed(realms, key) =>
      if cfg.realm !in realms then RealmNotFound
      else if o.roster != Arrived then WorldTimeout
      else if o.login == BadPlayer then UnknownCharacter
      else if o.loginComplete != Arrived then LoginTimeout
      else Established(OpenedSession(cfg, realms[cfg.realm], key))
  }

  const RealmServerDown: string := "Unable to connect to Realm List Server; Reconnecting"
  const WorldServerDown: string := "Unable to connect to World Server; Reconnecting"
  const ConnectedStatus: string := "Connected"

  /** The status line an attempt leaves behind. */
  function StatusOf(cfg: Config, r: ConnectResult): string {
    match r
    case Established(_) => ConnectedStatus
    case RealmTimeout => RealmServerDown
    case RealmAuthFailed => RealmServerDown
    case RealmNotFound => "Realm " + cfg.realm + " not found"
    case WorldTimeout => WorldServerDown
    case UnknownCharacter => "Character " + cfg.character + " not found; Reconnecting"
    case LoginTimeout => WorldServerDown
  }

  function TeardownOf(r: ConnectResult): Teardown {
    match r
    case RealmTimeout => RealmStopped
    case WorldTimeout => WorldDisconnected
    case UnknownCharacter => WorldDisconnected
    case LoginTimeout => WorldDisconnected
    case _ => NoTeardown
  }

  /** Every stage of the attempt goes right. */
  predicate AllStagesSucceed(cfg: Config, o: Outcomes) {
    o.realm.RealmsListed? && cfg.realm in o.realm.realms &&
    o.roster == Arrived && o.login == LoggedIn && o.loginComplete == Arrived
  }

  /** The attempt gets as far as opening a world session. */
  predicate WorldOpened(cfg: Config, o: Outcomes) {
    o.realm.RealmsListed? && cfg.realm in o.realm.realms
  }

  predicate EndsWith(s: string, suffix: string) {
    |suffix| <= |s| && s[|s| - |suffix|..] == suffix
  }

  /** An attempt succeeds exactly when every stage succeeds, and then its
      session belongs to the configured realm and account, has joined the
      configured channel and hears both chat opcodes. */
  lemma AttemptSucceedsIff(cfg: Config, o: Outcomes)
    ensures Attempt(cfg, o).Established? <==> AllStagesSucceed(cfg, o)
    ensures Attempt(cfg, o).Established? ==>
              var s := Attempt(cfg, o).session;
              var info := o.realm.realms[cfg.realm];
              s.host == info.host && s.port == info.port && s.realmId == info.id &&
              s.account == cfg.username && s.sessionKey == o.realm.sessionKey &&
              s.joined == cfg.channel && s.handlers == {MessageChat, GmMessageChat}
  {
  }

  /** The status reads "Connected" exactly when the attempt succeeded, whatever
      the configured realm and character names are. */
  lemma ConnectedIffEstablished(cfg: Config, r: ConnectResult)
    ensures StatusOf(cfg, r) == ConnectedStatus <==> r.Established?
  {
    var s := StatusOf(cfg, r);
    if r.RealmNotFound? {
      assert s[0] == 'R' != ConnectedStatus[0];
    } else if r.UnknownCharacter? {
      assert s[1] == 'h' != ConnectedStatus[1];
    } else if !r.Established? {
      assert |s| != |ConnectedStatus|;
    }
  }

  /** Every failure but a missing realm tells the caller it will reconnect; a
      missing realm is reported as not found, naming the realm. */
  lemma ReconnectingIffRetryable(cfg: Config, r: ConnectResult)
    ensures EndsWith(StatusOf(cfg, r), "; Reconnecting") <==> !r.Established? && !r.RealmNotFound?
    ensures r.RealmNotFound? ==> EndsWith(StatusOf(cfg, r), " not found")
  {
    var s := StatusOf(cfg, r);
    if r.RealmNotFound? {
      assert s == ("Realm " + cfg.realm) + " not found";
      assert s[|s| - 1] == 'd';
    } else if r.UnknownCharacter? {
      assert s == ("Character " + cfg.character + " not found") + "; Reconnecting";
    } else if r.Established? {
      assert |s| < |"; Reconnecting"|;
    } else {
      assert s == RealmServerDown || s == WorldServerDown;
    }
  }

  /** The world session is disconnected exactly when it was opened and the
      attempt then failed; the realm session is stopped exactly when the join
      timed out; an authentication error or a missing realm tears nothing
      down. */
  lemma TeardownIff(cfg: Config, o: Outcomes)
    ensures TeardownOf(Attempt(cfg, o)) == WorldDisconnected <==> WorldOpened(cfg, o) && !AllStagesSucceed(cfg, o)
    ensures TeardownOf(Attempt(cfg, o)) == RealmStopped <==> o.realm.JoinTimedOut?
  {
  }

  // ---------------------------------------------------------------------
  // Chat events
  // ---------------------------------------------------------------------

  /** `lower()` on a byte string: only ASCII letters change. */
  function LowerChar(c: char): char {
    if 'A' <= c <= 'Z' then (c as int + 32) as char else c
  }

  function UpperChar(c: char): char {
    if 'a' <= c <= 'z' then (c as int - 32) as char else c
  }

  function Lower(s: string): (r: string)
    ensures |r| == |s|
    ensures forall i :: 0 <= i < |r| ==> !('A' <= r[i] <= 'Z')
    ensures forall i :: 0 <= i < |s| && !('A' <= s[i] <= 'Z') ==> r[i] == s[i]
  {
    seq(|s|, i requires 0 <= i < |s| => LowerChar(s[i]))
  }

  function Upper(s: string): string {
    seq(|s|, i requires 0 <= i < |s| => UpperChar(s[i]))
  }

  predicate SameIgnoringCase(a: string, b: string) {
    Lower(a) == Lower(b)
  }

  /** The four guards of the handler. */
  predicate Qualifies(opcode: Opcode, chatType: ChatType, data: ChatData, cfg: Config) {
    && (opcode == MessageChat || opcode == GmMessageChat)
    && chatType == ChannelChat
    && SameIgnoringCase(data.channel, cfg.channel)
    && !SameIgnoringCase(data.source, cfg.character)
  }

  /** The line stored for a qualifying event. */
  function ChatLine(data: ChatData): string {
    data.source + ": " + Sanitizer.Sanitize(data.msg)
  }

  /** Writing a name in capitals does not change how it compares. */
  lemma LowerOfUpper(s: string)
    ensures Lower(Upper(s)) == Lower(s)
  {
    forall i | 0 <= i < |s|
      ensures Lower(Upper(s))[i] == Lower(s)[i]
    {
      var c := s[i];
      if 'a' <= c <= 'z' {
        assert UpperChar(c) as int == c as int - 32;
      }
    }
  }

  /** Whether an event qualifies does not depend on the letter case of its
      channel name or its sender name. */
  lemma QualifiesIgnoresCase(opcode: Opcode, chatType: ChatType, data: ChatData, cfg: Config)
    ensures Qualifies(opcode, chatType, ChatData(Upper(data.channel), data.source, data.msg), cfg)
            == Qualifies(opcode, chatType, data, cfg)
    ensures Qualifies(opcode, chatType, ChatData(data.channel, Upper(data.source), data.msg), cfg)
            == Qualifies(opcode, chatType, data, cfg)
  {
    LowerOfUpper(data.channel);
    LowerOfUpper(data.source);
  }

  /** Messages the bot's own character sends are never stored, whatever the
      letter case. */
  lemma OwnMessagesIgnored(opcode: Opcode, chatType: ChatType, data: ChatData, cfg: Config)
    requires Lower(data.source) == Lower(cfg.character) || data.source == Upper(cfg.character)
    ensures !Qualifies(opcode, chatType, data, cfg)
  {
    LowerOfUpper(cfg.character);
  }

  // ---------------------------------------------------------------------
  // The worker object
  // ---------------------------------------------------------------------

  class TCWorker {
    const cfg: Config
    const store: Store.Redis
    var status: string
    var world: Option<Session>
    var connected: bool

    constructor (cfg: Config, contents: Store.Db)
      ensures this.cfg == cfg && fresh(store) && store.ttl == cfg.ttl && store.data == contents
      ensures status == "" && world == None && !connected
    {
      this.cfg := cfg;
      store := new Store.Redis(cfg.ttl, contents);
      status := "";
      world := None;
      connected := false;
    }

    /** One connection attempt. The session, the connected flag and the
        "Connected" status are set only when every stage succeeds; each failure
        leaves its own status, keeps the session and the flag as they were, and
        shuts down the library session it had opened, if any. */
    method Connect(o: Outcomes) returns (ok: bool, teardown: Teardown)
      modifies this
      ensures var r := Attempt(cfg, o);
              && ok == r.Established?
              && status == StatusOf(cfg, r)
              && teardown == TeardownOf(r)
              && world == (if ok then Some(r.session) else old(world))
              && connected == (ok || old(connected))
    {
      status := "Connecting";
      if o.realm.JoinTimedOut? {
        status := RealmServerDown;
        return false, RealmStopped;
      }
      if o.realm.AuthFailed? {
        status := RealmServerDown;
        return false, NoTeardown;
      }
      var realms := o.realm.realms;
      if cfg.realm !in realms {
        status := "Realm " + cfg.realm + " not found";
        return false, NoTeardown;
      }
      var info := realms[cfg.realm];
      var w := Session(info.host, info.port, cfg.username, o.realm.sessionKey, info.id, "", {});
      if o.roster != Arrived {
        status := WorldServerDown;
        return false, WorldDisconnected;
      }
      if o.login == BadPlayer {
        status := "Character " + cfg.character + " not found; Reconnecting";
        return false, WorldDisconnected;
      }
      if o.loginComplete != Arrived {
        status := WorldServerDown;
        return false, WorldDisconnected;
      }
      w := w.(joined := cfg.channel);
      w := w.(handlers := w.handlers + {MessageChat});
      w := w.(handlers := w.handlers + {GmMessageChat});
      assert w.handlers == {MessageChat, GmMessageChat};
      world := Some(w);
      status := ConnectedStatus;
      connected := true;
      return true, NoTeardown;
    }

    /** The chat-event handler: a qualifying event appends exactly one line,
        "<sender>: <sanitised message>", to the store; any other event leaves
        the store as it was. */
    method HandleMessageChat(opcode: Opcode, chatType: ChatType, data: ChatData)
      requires Qualifies(opcode, chatType, data, cfg) ==> Store.HasCounter(store.data)
      modifies store
      ensures store.data == if Qualifies(opcode, chatType, data, cfg)
                            then Store.Appended(old(store.data), ChatLine(data), store.ttl)
                            else old(store.data)
      ensures store.data != old(store.data) <==> Qualifies(opcode, chatType, data, cfg)
    {
      if opcode != MessageChat && opcode != GmMessageChat {
        return;
      }
      if chatType != ChannelChat {
        return;
      }
      if Lower(data.channel) != Lower(cfg.channel) {
        return;
      }
      var user := data.source;
      var msg := data.msg;
      if Lower(user) == Lower(cfg.character) {
        return;
      }
      msg := Sanitizer.Sanitize(msg);
      store.SaveMessage(user + ": " + msg);
    }
  }
}
