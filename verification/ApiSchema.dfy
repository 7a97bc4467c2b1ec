/** The messages of frontend/src/app/global/model/api.ts: number, kind and repetition of every field,
    in the order in which the file encodes them. */
module ApiSchema {
  import opened WireMessages

  function One(number: nat, kind: Kind): Field {
    Field(number, kind, false)
  }

  function Many(number: nat, kind: Kind): Field {
    Field(number, kind, true)
  }

  const EMPTY := Schema([])

  const LINE := Schema([
    One(1, Text)])                            // line

  const REQUEST := Schema([
    One(1, Text)])                            // search

  const ADDRESS := Schema([
    One(1, Int64),                            // id
    One(2, Int64),                            // createdAt
    One(3, Int64),                            // updatedAt
    One(4, Text),                             // ipv4
    One(5, Text),                             // ipv6
    One(6, Bool)])                            // current

  const ADDRESS_HISTORY := Schema([
    Many(1, Message(ADDRESS))])               // addresses

  const CERTIFICATE := Schema([
    One(1, Int64),                            // id
    One(2, Int64),                            // createdAt
    One(3, Int64),                            // updatedAt
    One(4, Int64),                            // recordId
    One(5, Text),                             // domains
    One(6, Text),                             // status
    One(7, Int64),                            // notBefore
    One(8, Int64),                            // notAfter
    One(9, Text),                             // serial
    One(10, Text)])                           // lastError

  const RECORD := Schema([
    One(1, Int64),                            // id
    One(2, Int64),                            // createdAt
    One(3, Int64),                            // updatedAt
    One(4, Text),                             // token
    One(5, Int64),                            // zoneId
    One(6, Text),                             // domain
    One(7, Text),                             // name
    One(8, Uint32),                           // ttl
    One(9, Int64),                            // addressId
    One(10, Message(ADDRESS)),                // address
    One(11, Int32),                           // purpose
    One(12, Bool),                            // includeWildcard
    One(13, Message(CERTIFICATE)),            // certificate
    One(14, Text)])                           // acmeEmail

  const RECORD_LIST := Schema([
    Many(1, Message(RECORD))])                // records

  const RECORD_DELETE := Schema([
    One(1, Message(RECORD)),                  // record
    One(2, Bool)])                            // deleteFromHetzner

  const CERTIFICATE_LIST := Schema([
    Many(1, Message(CERTIFICATE))])           // certificates

  const CERTIFICATE_ARTIFACT := Schema([
    One(1, Text),                             // key
    One(2, Text),                             // label
    One(3, Bool),                             // available
    One(4, Text)])                            // downloadUrl

  const CERTIFICATE_ISSUANCE_JOB := Schema([
    One(1, Int64),                            // id
    One(2, Text),                             // source
    One(3, Text),                             // status
    One(4, Int64),                            // startedAt
    One(5, Int64),                            // finishedAt
    One(6, Int64),                            // durationMs
    One(7, Text),                             // error
    One(8, Int64)])                           // certificateId

  const CERTIFICATE_TASK_RUN := Schema([
    One(1, Int64),                            // id
    One(2, Int64),                            // taskId
    One(3, Text),                             // taskName
    One(4, Text),                             // status
    One(5, Text),                             // responseStatus
    One(6, Text),                             // error
    One(7, Int64),                            // startedAt
    One(8, Int64),                            // finishedAt
    One(9, Int64),                            // durationMs
    One(10, Int64)])                          // certificateJobId

  const CERTIFICATE_DETAILS := Schema([
    One(1, Int64),                            // recordId
    One(2, Text),                             // recordName
    One(3, Text),                             // recordDomain
    One(4, Message(CERTIFICATE)),             // certificate
    Many(5, Message(CERTIFICATE_ARTIFACT)),   // artifacts
    Many(6, Message(CERTIFICATE_ISSUANCE_JOB)),// issuanceJobs
    Many(7, Message(CERTIFICATE_TASK_RUN)),   // taskRuns
    One(8, Int64)])                           // fetchedAt

  const TASK := Schema([
    One(1, Int64),                            // id
    One(2, Int64),                            // createdAt
    One(3, Int64),                            // updatedAt
    One(4, Int64),                            // recordId
    One(5, Text),                             // name
    One(6, Int32),                            // triggerOn
    One(7, Text),                             // method
    One(8, Text),                             // url
    One(9, Text),                             // headers
    One(10, Text),                            // body
    One(11, Bool),                            // enabled
    One(12, Int64),                           // lastRun
    One(13, Text),                            // lastStatus
    One(14, Text),                            // lastError
    One(15, Bool),                            // includeCertificate
    One(16, Text)])                           // certificateFormat

  const TASK_LIST := Schema([
    Many(1, Message(TASK))])                  // tasks

  const TASK_DELETE := Schema([
    One(1, Int64)])                           // id

  const TASK_RESULT := Schema([
    One(1, Text),                             // status
    One(2, Text)])                            // error

  const ZONE := Schema([
    One(1, Int64),                            // id
    One(2, Text),                             // name
    One(3, Int64)])                           // recordCount

  const ZONE_LIST := Schema([
    Many(1, Message(ZONE))])                  // zones

  const RESOLUTION := Schema([
    One(1, Text),                             // server
    Many(2, Text),                            // addresses
    One(3, Int64),                            // responseTime
    One(4, Text)])                            // error

  const RESOLUTION_RESULT := Schema([
    Many(1, Message(RESOLUTION))])            // resolutions

  const CONFIGURATION := Schema([
    One(1, Int32),                            // logLevel
    One(2, Text),                             // refreshCron
    Many(3, Text),                            // dnsServers
    Many(4, Text),                            // ipv4Resolvers
    Many(5, Text),                            // ipv6Resolvers
    One(15, Double),                          // ipv4ResolverAgreementThreshold
    One(16, Double),                          // ipv6ResolverAgreementThreshold
    One(17, Int32),                           // ipv4ResolverMinResponses
    One(18, Int32),                           // ipv6ResolverMinResponses
    One(6, Bool),                             // notificationsEnabled
    One(7, Bool),                             // notificationsOnSuccess
    Many(8, Text),                            // notificationsRecipients
    One(9, Int32),                            // notificationsCooldownMinutes
    One(10, Text),                            // notificationsSubjectPrefix
    One(11, Bool),                            // acmeEnabled
    One(12, Text),                            // acmeEmail
    One(13, Bool),                            // acmeStaging
    One(14, Int32)])                          // acmeRenewBeforeDays

  const LOG_ENTRY := Schema([
    One(1, Int64),                            // timestamp
    One(2, Int32),                            // level
    One(3, Text)])                            // message

  lemma NumberedInOrder(schema: Schema)
    requires |schema.fields| < 0x1000
    requires forall i :: 0 <= i < |schema.fields| ==> schema.fields[i].number == i + 1
    requires forall i :: 0 <= i < |schema.fields| && schema.fields[i].kind.Message? ==>
               ValidSchema(schema.fields[i].kind.schema)
    ensures ValidSchema(schema)
  {
  }

  lemma LeavesAreValid()
    ensures ValidSchema(ADDRESS) && ValidSchema(CERTIFICATE) && ValidSchema(CERTIFICATE_ARTIFACT)
    ensures ValidSchema(CERTIFICATE_ISSUANCE_JOB) && ValidSchema(CERTIFICATE_TASK_RUN)
    ensures ValidSchema(ZONE) && ValidSchema(RESOLUTION)
  {
    NumberedInOrder(ADDRESS);
    NumberedInOrder(CERTIFICATE);
    NumberedInOrder(CERTIFICATE_ARTIFACT);
    NumberedInOrder(CERTIFICATE_ISSUANCE_JOB);
    NumberedInOrder(CERTIFICATE_TASK_RUN);
    NumberedInOrder(ZONE);
    NumberedInOrder(RESOLUTION);
  }

  lemma TaskIsValid()
    ensures ValidSchema(TASK)
  {
    NumberedInOrder(TASK);
  }

  lemma FlatMessagesAreValid()
    ensures ValidSchema(EMPTY) && ValidSchema(LINE) && ValidSchema(REQUEST) && ValidSchema(TASK)
    ensures ValidSchema(TASK_DELETE) && ValidSchema(TASK_RESULT) && ValidSchema(LOG_ENTRY)
  {
    TaskIsValid();
    NumberedInOrder(LINE);
    NumberedInOrder(REQUEST);
    NumberedInOrder(TASK_DELETE);
    NumberedInOrder(TASK_RESULT);
    NumberedInOrder(LOG_ENTRY);
  }

  lemma RecordsAreValid()
    ensures ValidSchema(RECORD) && ValidSchema(RECORD_LIST) && ValidSchema(RECORD_DELETE)
  {
    LeavesAreValid();
    NumberedInOrder(RECORD);
    NumberedInOrder(RECORD_LIST);
    NumberedInOrder(RECORD_DELETE);
  }

  lemma DetailsAreValid()
    ensures ValidSchema(CERTIFICATE_DETAILS)
  {
    LeavesAreValid();
    NumberedInOrder(CERTIFICATE_DETAILS);
  }

  // One repeated field of messages.
  lemma ListIsValid(item: Schema)
    requires ValidSchema(item)
    ensures ValidSchema(Schema([Many(1, Message(item))]))
  {
  }

  lemma ListsAreValid()
    ensures ValidSchema(ADDRESS_HISTORY) && ValidSchema(CERTIFICATE_LIST) && ValidSchema(TASK_LIST)
    ensures ValidSchema(ZONE_LIST) && ValidSchema(RESOLUTION_RESULT)
  {
    LeavesAreValid();
    FlatMessagesAreValid();
    ListIsValid(ADDRESS);
    ListIsValid(CERTIFICATE);
    ListIsValid(TASK);
    ListIsValid(ZONE);
    ListIsValid(RESOLUTION);
  }

  // Configuration writes fields 15 to 18 between 5 and 6.
  lemma ConfigurationIsValid()
    ensures ValidSchema(CONFIGURATION)
  {
    var fields := CONFIGURATION.fields;
    assert forall i :: 0 <= i < |fields| ==>
             fields[i].number == (if i < 5 then i + 1 else if i < 9 then i + 10 else i - 3)
             && !fields[i].kind.Message?;
  }

  /** All message types of the file have distinct field numbers, so the round trip, composition and
      skipping results of WireMessages and WireRoundTrip hold for each. */
  lemma SchemasAreValid()
    ensures ValidSchema(EMPTY) && ValidSchema(LINE) && ValidSchema(REQUEST) && ValidSchema(ADDRESS)
    ensures ValidSchema(ADDRESS_HISTORY) && ValidSchema(RECORD) && ValidSchema(RECORD_LIST)
    ensures ValidSchema(RECORD_DELETE) && ValidSchema(CERTIFICATE) && ValidSchema(CERTIFICATE_LIST)
    ensures ValidSchema(CERTIFICATE_ARTIFACT) && ValidSchema(CERTIFICATE_ISSUANCE_JOB)
    ensures ValidSchema(CERTIFICATE_TASK_RUN) && ValidSchema(CERTIFICATE_DETAILS)
    ensures ValidSchema(TASK) && ValidSchema(TASK_LIST) && ValidSchema(TASK_DELETE) && ValidSchema(TASK_RESULT)
    ensures ValidSchema(ZONE) && ValidSchema(ZONE_LIST) && ValidSchema(RESOLUTION)
    ensures ValidSchema(RESOLUTION_RESULT) && ValidSchema(CONFIGURATION) && ValidSchema(LOG_ENTRY)
  {
    LeavesAreValid();
    FlatMessagesAreValid();
    RecordsAreValid();
    DetailsAreValid();
    ListsAreValid();
    ConfigurationIsValid();
  }

  // The tags in the order in which encode writes the fields.
  function Tags(fields: seq<Field>): (tags: seq<nat>)
    ensures |tags| == |fields|
  {
    seq(|fields|, i requires 0 <= i < |fields| => Tag(fields[i]))
  }

  /** The field lists give the tag constants that stand in the file. */
  lemma TagsOfTheFile()
    ensures Tags(ADDRESS.fields) == [8, 16, 24, 34, 42, 48]
    ensures Tags(RECORD.fields) == [8, 16, 24, 34, 40, 50, 58, 64, 72, 82, 88, 96, 106, 114]
    ensures Tags(CERTIFICATE.fields) == [8, 16, 24, 32, 42, 50, 56, 64, 74, 82]
  {
  }

  lemma CertificateTags()
    ensures Tags(CERTIFICATE_ARTIFACT.fields) == [10, 18, 24, 34]
    ensures Tags(CERTIFICATE_ISSUANCE_JOB.fields) == [8, 18, 26, 32, 40, 48, 58, 64]
    ensures Tags(CERTIFICATE_TASK_RUN.fields) == [8, 16, 26, 34, 42, 50, 56, 64, 72, 80]
  {
  }

  lemma MoreTagsOfTheFile()
    ensures Tags(CERTIFICATE_DETAILS.fields) == [8, 18, 26, 34, 42, 50, 58, 64]
    ensures Tags(TASK.fields) == [8, 16, 24, 32, 42, 48, 58, 66, 74, 82, 88, 96, 106, 114, 120, 130]
    ensures Tags(CONFIGURATION.fields) == [8, 18, 26, 34, 42, 121, 129, 136, 144, 48, 56, 66, 72, 82, 88, 98, 104, 112]
  {
  }
}
