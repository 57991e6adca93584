// Which variable each entry of a notification channel's configuration ends in.
module NotificationVars {
  import opened Wrappers
  import opened ShellReader
  import opened RemoteScripts

  // One name per entry, whatever the kind of the channel.
  datatype Entry = Token | Target | Topic | Device | Priority | WebhookUrl | ServerUrl | AppToken | UserKey

  function KeyOf(e: Entry): string {
    match e
    case Token => "token"
    case Target => "target"
    case Topic => "topic"
    case Device => "device"
    case Priority => "priority"
    case WebhookUrl => "webhookUrl"
    case ServerUrl => "serverUrl"
    case AppToken => "appToken"
    case UserKey => "userKey"
  }

  function NameOf(e: Entry): string {
    match e
    case Token => "WEEHAWK_NOTIFY_TOKEN"
    case Target => "WEEHAWK_NOTIFY_TARGET"
    case Topic => "WEEHAWK_NOTIFY_TOPIC"
    case Device => "WEEHAWK_NOTIFY_DEVICE"
    case Priority => "WEEHAWK_NOTIFY_PRIORITY"
    case WebhookUrl => "WEEHAWK_NOTIFY_WEBHOOK_URL"
    case ServerUrl => "WEEHAWK_NOTIFY_SERVER_URL"
    case AppToken => "WEEHAWK_NOTIFY_APP_TOKEN"
    case UserKey => "WEEHAWK_NOTIFY_USER_KEY"
  }

  // The entries a channel of this kind hands to a script, in order.
  function EntriesOf(kind: ChannelType): seq<Entry> {
    match kind
    case Telegram => [Token, Target]
    case Slack => [WebhookUrl]
    case Discord => [WebhookUrl]
    case Lark => [WebhookUrl]
    case MicrosoftTeams => [WebhookUrl]
    case Gotify => [ServerUrl, AppToken, Priority]
    case Ntfy => [ServerUrl, Topic, Token]
    case Pushover => [AppToken, UserKey, Device]
    case Unsupported => []
  }

  // An entry that is missing reads as empty, an empty priority as 5.
  function ValueOf(config: map<string, string>, e: Entry): string {
    if KeyOf(e) in config && config[KeyOf(e)] != "" then config[KeyOf(e)] else if e == Priority then "5" else ""
  }

  lemma VarsFollowEntries(c: Channel)
    ensures |ProviderVars(c)| == |EntriesOf(c.kind)|
    ensures forall k :: 0 <= k < |ProviderVars(c)| ==>
              ProviderVars(c)[k] == (NameOf(EntriesOf(c.kind)[k]), ValueOf(c.config, EntriesOf(c.kind)[k]))
  {
  }

  // What sourcing the credential file of a channel sets: a flag alone when there is no channel or its
  // kind is not supported; otherwise the flag, the kind, the name, and each entry under its own name.
  lemma FileSetsEntries(c: Option<Channel>)
    ensures var vars := Source(Unlines(CredentialLines(c)));
            && vars.Some?
            && (c.None? || c.value.kind == Unsupported ==> vars.value == [("WEEHAWK_NOTIFY_ENABLED", "0")])
            && (c.Some? && c.value.kind != Unsupported ==>
                  && |vars.value| == 3 + |EntriesOf(c.value.kind)|
                  && vars.value[0] == ("WEEHAWK_NOTIFY_ENABLED", "1")
                  && vars.value[1] == ("WEEHAWK_NOTIFY_TYPE", c.value.typeName)
                  && vars.value[2] == ("WEEHAWK_NOTIFY_CHANNEL_NAME", c.value.name)
                  && forall k :: 0 <= k < |EntriesOf(c.value.kind)| ==>
                       vars.value[3 + k] == (NameOf(EntriesOf(c.value.kind)[k]), ValueOf(c.value.config, EntriesOf(c.value.kind)[k])))
  {
    hide Source, Unlines, CredentialLines, ProviderVars, EntriesOf, NameOf, ValueOf;
    CredentialsReadBack(c);
    if c.Some? {
      VarsFollowEntries(c.value);
    }
  }
}
