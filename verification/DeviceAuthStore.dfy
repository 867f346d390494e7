/** The shared map of the device authorization grant (RFC 8628).

    One map, `DeviceAuthMap`, holds two linked entries for each flow: one under the device
    code and one under the user code.  The map is only ever touched through four atomic
    operations, the ones of `deviceAuthStore` in object/device_auth_store.go.
  */
module DeviceAuthStore {
  import opened Wrappers

  datatype Status = Pending | Approved | Denied | TokenIssued

  /** `DeviceAuthCache`: in a device entry `userName` is the approving user, in a user entry it
      is the linked device code. */
  datatype Cache = Cache(
    userSignIn: bool,
    userName: string,
    applicationId: string,
    clientId: string,
    scope: string,
    resource: string,
    requestAt: int,
    status: Status,
    cancelToken: string,
    expiresIn: int)
  {
    function Lifetime(): int {
      if expiresIn <= 0 then DEFAULT_EXPIRES_IN else expiresIn
    }

    predicate IsExpired(now: int) {
      requestAt + Lifetime() < now
    }
  }

  const DEFAULT_EXPIRES_IN := 120

  /** A device code is a UUID: 36 characters, none of them a slash. */
  predicate IsDeviceCode(s: string) {
    |s| == 36 && '/' !in s
  }

  /** A user code is drawn from 36 alphanumeric characters and is 6 characters long. */
  predicate IsUserCode(s: string) {
    |s| == 6 && '/' !in s
  }

  /** A user id is `owner/name`. */
  predicate IsUserId(s: string) {
    '/' in s
  }

  class DeviceAuthMap {
    var entries: map<string, Cache>

    constructor ()
      ensures entries == map[]
    {
      entries := map[];
    }

    method Load(key: string) returns (found: Option<Cache>)
      ensures found == if key in entries then Some(entries[key]) else None
    {
      found := if key in entries then Some(entries[key]) else None;
    }

    method Store(key: string, value: Cache)
      modifies this
      ensures entries == old(entries)[key := value]
    {
      entries := entries[key := value];
    }

    method Delete(key: string)
      modifies this
      ensures entries == old(entries) - {key}
    {
      entries := entries - {key};
    }

    method LoadAndDelete(key: string) returns (found: Option<Cache>)
      modifies this
      ensures found == if key in old(entries) then Some(old(entries)[key]) else None
      ensures entries == old(entries) - {key}
    {
      found := if key in entries then Some(entries[key]) else None;
      entries := entries - {key};
    }
  }
}
