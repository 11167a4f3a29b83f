/** Messages between clients and a Pancy service, over any types of keys and values. */
module PancyMsgs {
  const NONEXISTENT_VERSION := 0
  const ANY_VERSION := -1

  datatype Errc = Ok | NotFound | NoMatch | Redirect

  datatype Request<K, V> =
    | GetRequest(serial: nat, key: K)
    | PutRequest(serial: nat, key: K, value: V, versionMatch: int)
    | CasRequest(serial: nat, key: K, expected: V, desired: V, versionMatch: int)
    | RemoveRequest(serial: nat, key: K, versionMatch: int)

  datatype Response<V> =
    | RedirectionResponse(serial: nat, errcode: Errc, redirection: nat)
    | GetResponse(serial: nat, errcode: Errc, value: V, version: int)
    | PutResponse(serial: nat, errcode: Errc, actual: V, previousVersion: int, version: int)
    | CasResponse(serial: nat, errcode: Errc, actual: V, previousVersion: int, version: int)
    | RemoveResponse(serial: nat, errcode: Errc, actual: V, previousVersion: int, version: int)
}
