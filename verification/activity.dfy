/** The activity-feed records the ledger is built from: a type code `t`, a
    timestamp `dt` and a `data` payload whose fields may be absent. */
module Activity {
  import opened Wrappers

  const TradeCode := 15
  const LoginBonusCode := 22
  const AchievementCode := 26

  /** The payload fields that influence the ledger; an absent key is None. */
  datatype Payload = Payload(
    byr: Option<string>,           // buyer id
    slr: Option<string>,           // seller id
    pn: Option<string>,            // player name
    trp: Option<int>,              // trade price
    achievementType: Option<int>)  // the achievement's own `t` field

  datatype Event = Event(t: int, dt: string, data: Payload)

  /** Python truthiness of an optional string: present and non-empty. */
  predicate Truthy(v: Option<string>) {
    v.Some? && v.value != ""
  }
}
