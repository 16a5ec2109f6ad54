/** `initialize_azure_clients`: fetch the three connection strings, then
    build the Blob Storage client, the Service Bus client and the PostgreSQL
    pool into module globals and create the submissions table. Any exception
    is re-raised, so startup does not complete. */
module Startup {
  import opened Outcomes
  import opened Secrets

  /** Clients, each remembering the connection string it was built from. */
  datatype BlobService = BlobService(connectionString: Option<string>)
  datatype ServiceBus = ServiceBus(connectionString: Option<string>)
  datatype Pool = Pool(connectionString: Option<string>)

  /** The three secrets read at startup. */
  datatype SecretId = Storage | Postgres | ServiceBusConnection

  function SecretName(id: SecretId): string
  {
    match id
    case Storage => StorageSecret
    case Postgres => PostgresSecret
    case ServiceBusConnection => ServiceBusSecret
  }

  /** One call made during startup, in the order made. */
  datatype Step =
    | FetchSecret(secret: SecretId)
    | BuildBlobService(connectionString: Option<string>)
    | BuildServiceBus(connectionString: Option<string>)
    | CreatePool(connectionString: Option<string>)
    | CreateTable

  /** How each SDK call made after the secrets are read turns out. Whether
      an SDK constructor accepts a given connection string (None included)
      is the SDK's business, so it is an input here. */
  datatype SdkOutcomes = SdkOutcomes(
    blobService: Outcome,
    serviceBus: Outcome,
    pool: Outcome,
    createTable: Outcome)

  /** The SDK outcomes in call order. */
  function InCallOrder(sdk: SdkOutcomes): seq<Outcome>
  {
    [sdk.blobService, sdk.serviceBus, sdk.pool, sdk.createTable]
  }

  /** The three connection strings as `get_secret` returned them. */
  datatype SecretBundle = SecretBundle(
    storage: Option<string>,
    postgres: Option<string>,
    serviceBus: Option<string>)

  /** The three `get_secret` calls, storage first, then PostgreSQL, then
      Service Bus. */
  function ResolveSecrets(vault: map<string, string>, env: map<string, string>): SecretBundle
  {
    SecretBundle(
      GetSecret(vault, env, SecretName(Storage)),
      GetSecret(vault, env, SecretName(Postgres)),
      GetSecret(vault, env, SecretName(ServiceBusConnection)))
  }

  /** The secrets requested, in order. */
  const SecretRequests: seq<Step> :=
    [FetchSecret(Storage), FetchSecret(Postgres), FetchSecret(ServiceBusConnection)]

  /** Every SDK call startup would make if none raised, in order. */
  function ClientSteps(secrets: SecretBundle): seq<Step>
  {
    [ BuildBlobService(secrets.storage),
      BuildServiceBus(secrets.serviceBus),
      CreatePool(secrets.postgres),
      CreateTable ]
  }

  /** Index of the first failing outcome, or |outs| when all pass. */
  function FirstFailure(outs: seq<Outcome>): (k: nat)
    ensures k <= |outs|
    ensures forall i :: 0 <= i < k ==> outs[i].Pass?
    ensures k < |outs| ==> outs[k].Fail?
  {
    if outs == [] then 0
    else if outs[0].Fail? then 0
    else 1 + FirstFailure(outs[1..])
  }

  /** How many SDK calls return before the first one raises (4 when none
      does). */
  function CallsReturned(sdk: SdkOutcomes): nat
  {
    if sdk.blobService.Fail? then 0
    else if sdk.serviceBus.Fail? then 1
    else if sdk.pool.Fail? then 2
    else if sdk.createTable.Fail? then 3
    else 4
  }

  /** CallsReturned is the position of the first failure in call order. */
  lemma CallsReturnedIsFirstFailure(sdk: SdkOutcomes)
    ensures CallsReturned(sdk) == FirstFailure(InCallOrder(sdk))
  {
    var outs := InCallOrder(sdk);
    var rest1, rest2, rest3 := outs[1..], outs[2..], outs[3..];
    assert rest1[1..] == rest2 && rest2[1..] == rest3 && rest3[1..] == [];
    assert FirstFailure(rest3) == if sdk.createTable.Fail? then 0 else 1;
    assert FirstFailure(rest2) == if sdk.pool.Fail? then 0 else 1 + FirstFailure(rest3);
    assert FirstFailure(rest1) == if sdk.serviceBus.Fail? then 0 else 1 + FirstFailure(rest2);
  }

  /** The module globals `db_pool`, `blob_service_client` and
      `servicebus_client`. */
  class Globals {
    var dbPool: Option<Pool>
    var blobService: Option<BlobService>
    var serviceBus: Option<ServiceBus>

    /** At import time all three globals are None. */
    constructor ()
      ensures dbPool == None && blobService == None && serviceBus == None
    {
      dbPool, blobService, serviceBus := None, None, None;
    }

    /** All three clients are in place. */
    predicate Ready()
      reads this
    {
      dbPool.Some? && blobService.Some? && serviceBus.Some?
    }

    /** `initialize_azure_clients()`. `steps` records the calls made;
        `result` is Pass, or the failure of the first SDK call that raised,
        re-raised unchanged. A global keeps its old value unless its own
        constructor returned, and one assigned before a later failure stays
        assigned. */
    method InitializeAzureClients(vault: map<string, string>, env: map<string, string>, sdk: SdkOutcomes)
      returns (result: Outcome, steps: seq<Step>)
      modifies this
      ensures var k, secrets := CallsReturned(sdk), ResolveSecrets(vault, env);
              && steps == SecretRequests + ClientSteps(secrets)[..if k < 4 then k + 1 else 4]
              && result == (if k < 4 then InCallOrder(sdk)[k] else Pass)
              && blobService == (if k > 0 then Some(BlobService(secrets.storage)) else old(blobService))
              && serviceBus == (if k > 1 then Some(ServiceBus(secrets.serviceBus)) else old(serviceBus))
              && dbPool == (if k > 2 then Some(Pool(secrets.postgres)) else old(dbPool))
      ensures result.Pass? <==> forall i :: 0 <= i < 4 ==> InCallOrder(sdk)[i].Pass?
      ensures result.Pass? ==> Ready()
      ensures steps[..3] == SecretRequests
      ensures forall i :: 3 <= i < |steps| ==> !steps[i].FetchSecret?
    {
      var secrets := ResolveSecrets(vault, env);
      steps := SecretRequests;
      ghost var all := ClientSteps(secrets);

      steps := steps + [BuildBlobService(secrets.storage)];
      if sdk.blobService.Fail? {
        assert steps == SecretRequests + all[..1];
        return sdk.blobService, steps;
      }
      blobService := Some(BlobService(secrets.storage));

      steps := steps + [BuildServiceBus(secrets.serviceBus)];
      if sdk.serviceBus.Fail? {
        assert steps == SecretRequests + all[..2];
        return sdk.serviceBus, steps;
      }
      serviceBus := Some(ServiceBus(secrets.serviceBus));

      steps := steps + [CreatePool(secrets.postgres)];
      if sdk.pool.Fail? {
        assert steps == SecretRequests + all[..3];
        return sdk.pool, steps;
      }
      dbPool := Some(Pool(secrets.postgres));

      steps := steps + [CreateTable];
      if sdk.createTable.Fail? {
        assert steps == SecretRequests + all;
        return sdk.createTable, steps;
      }
      assert steps == SecretRequests + all;
      result := Pass;
    }
  }
}
