/** The values that travel through the notifier: events from ArgoCD, the keys
    that name a session and a destination, and the notification they turn into. */
module Domain {

  datatype Option<+T> = None | Some(value: T)

  /** The result of a call that may fail; the text of an error is not modelled. */
  datatype Outcome<+T> = Ok(value: T) | Failed

  datatype Event = Event(
    groupKey: string,
    appName: string,
    trigger: string,
    revision: string,
    recipient: string,
    backend: string,
    labels: map<string, string>,
    target: string,
    healthStatus: string,
    syncPhase: string,
    syncStatus: string,
    operationMsg: string,
    repoURL: string,
    images: seq<string>,
    initiatedBy: string,
    argoCDURL: string,
    targetRevision: string)

  datatype SessionKey = SessionKey(groupKey: string, revision: string, trigger: string)

  /** Identifies one tracked message of a session. */
  datatype RefKey = RefKey(backend: string, recipient: string)

  datatype Field = Field(name: string, value: string)

  datatype Item = Item(
    appName: string,
    cluster: string,
    trigger: string,
    commitURL: string,
    commitSHA: string,
    targetRevision: string,
    triggeredBy: string,
    images: seq<string>,
    fields: seq<Field>,
    detailText: string,
    link: string)

  datatype Notification = Notification(summary: string, items: seq<Item>)

  /** What one `Upsert` call is given. */
  datatype UpsertCall = UpsertCall(key: SessionKey, events: seq<Event>)
}
