/** `get_secret`: read a named secret from Key Vault and, when the vault
    call raises, fall back to an environment variable derived from the
    secret's name. */
module Secrets {
  import opened Outcomes
  import opened Text

  /** The three secrets the service reads at startup. */
  const StorageSecret := "storage-connection-string"
  const PostgresSecret := "postgres-connection-string"
  const ServiceBusSecret := "servicebus-connection-string"

  /** `variable` is the fallback environment variable for `secretName`:
      same length, every `-` turned into `_`, every other character
      upper-cased. */
  predicate IsFallbackVariable(variable: string, secretName: string)
  {
    && |variable| == |secretName|
    && forall i :: 0 <= i < |secretName| ==>
         variable[i] == if secretName[i] == '-' then '_' else AsciiUpper(secretName[i])
  }

  /** `secret_name.upper().replace("-", "_")`. */
  function EnvName(secretName: string): (variable: string)
    ensures IsFallbackVariable(variable, secretName)
    ensures |variable| == |secretName|
    ensures '-' !in variable
    ensures forall i :: 0 <= i < |variable| ==> !('a' <= variable[i] <= 'z')
  {
    ReplaceAll(ToUpper(secretName), '-', '_')
  }

  /** Exactly one variable is the fallback for a given secret name. */
  lemma FallbackVariableUnique(secretName: string, variable: string)
    requires IsFallbackVariable(variable, secretName)
    ensures variable == EnvName(secretName)
  {
    var e := EnvName(secretName);
    assert forall i :: 0 <= i < |e| ==> variable[i] == e[i];
  }

  /** The fallback name of a concatenation is the concatenation of the
      fallback names. */
  lemma EnvNameAppend(a: string, b: string)
    ensures EnvName(a + b) == EnvName(a) + EnvName(b)
  {
    FallbackVariableUnique(a + b, EnvName(a) + EnvName(b));
  }

  /** The common tail of the three startup secret names. */
  lemma ConnectionStringSuffixVariable()
    ensures EnvName("-connection-string") == "_CONNECTION_STRING"
  {
    FallbackVariableUnique("-connection-string", "_CONNECTION_STRING");
  }

  /** The variable consulted when the vault cannot supply the Blob Storage
      connection string. */
  lemma StorageFallbackVariable()
    ensures EnvName(StorageSecret) == "STORAGE_CONNECTION_STRING"
  {
    assert StorageSecret == "storage" + "-connection-string";
    assert "STORAGE_CONNECTION_STRING" == "STORAGE" + "_CONNECTION_STRING";
    FallbackVariableUnique("storage", "STORAGE");
    ConnectionStringSuffixVariable();
    EnvNameAppend("storage", "-connection-string");
  }

  /** The variable consulted when the vault cannot supply the PostgreSQL
      connection string. */
  lemma PostgresFallbackVariable()
    ensures EnvName(PostgresSecret) == "POSTGRES_CONNECTION_STRING"
  {
    assert PostgresSecret == "postgres" + "-connection-string";
    assert "POSTGRES_CONNECTION_STRING" == "POSTGRES" + "_CONNECTION_STRING";
    FallbackVariableUnique("postgres", "POSTGRES");
    ConnectionStringSuffixVariable();
    EnvNameAppend("postgres", "-connection-string");
  }

  /** The variable consulted when the vault cannot supply the Service Bus
      connection string. */
  lemma ServiceBusFallbackVariable()
    ensures EnvName(ServiceBusSecret) == "SERVICEBUS_CONNECTION_STRING"
  {
    assert ServiceBusSecret == "servicebus" + "-connection-string";
    assert "SERVICEBUS_CONNECTION_STRING" == "SERVICEBUS" + "_CONNECTION_STRING";
    FallbackVariableUnique("servicebus", "SERVICEBUS");
    ConnectionStringSuffixVariable();
    EnvNameAppend("servicebus", "-connection-string");
  }

  /** `os.getenv(variable)`: the value, or None when the variable is unset. */
  function Getenv(env: map<string, string>, variable: string): Option<string>
  {
    if variable in env then Some(env[variable]) else None
  }

  /** `get_secret(secret_name)`. `vault` holds the secrets the vault call
      returns; a name missing from it is a call that raised. The function
      itself never fails: after a vault failure it returns whatever the
      fallback variable holds, None when that is unset. */
  function GetSecret(vault: map<string, string>, env: map<string, string>, secretName: string)
    : (value: Option<string>)
    ensures secretName in vault ==> value == Some(vault[secretName])
    ensures secretName !in vault ==>
              forall variable :: IsFallbackVariable(variable, secretName) ==>
                value == Getenv(env, variable)
  {
    if secretName in vault then Some(vault[secretName])
    else
      var variable := EnvName(secretName);
      assert forall v :: IsFallbackVariable(v, secretName) ==> v == variable by {
        forall v | IsFallbackVariable(v, secretName) ensures v == variable {
          FallbackVariableUnique(secretName, v);
        }
      }
      Getenv(env, variable)
  }
}
