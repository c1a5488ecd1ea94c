/**
 * The contextual identity ("container") that holds the SSO cookie store, and the
 * selection `setupContainer` makes: reuse the first container named "SSO Login",
 * or create one.
 */
module Containers {

  const CONTAINER_NAME: string := "SSO Login"
  const CONTAINER_COLOR: string := "red"
  const CONTAINER_ICON: string := "briefcase"

  /** A contextual identity as the browser reports it. */
  datatype Identity = Identity(name: string, color: string, icon: string, cookieStoreId: string)

  /** `contextualIdentities.query({name})`: the identities with that exact name, in registry order. */
  function Named(identities: seq<Identity>, name: string): (r: seq<Identity>)
    ensures forall i :: i in r <==> i in identities && i.name == name
    ensures |r| <= |identities|
  {
    if identities == [] then []
    else (if identities[0].name == name then [identities[0]] else []) + Named(identities[1..], name)
  }

  lemma {:induction false} NamedAppend(identities: seq<Identity>, x: Identity, name: string)
    ensures Named(identities + [x], name) == Named(identities, name) + (if x.name == name then [x] else [])
    decreases |identities|
  {
    if identities == [] {
      assert Named([x], name) == (if x.name == name then [x] else []) + Named([], name);
    } else {
      assert (identities + [x])[1..] == identities[1..] + [x];
      NamedAppend(identities[1..], x, name);
    }
  }

  /**
   * The first identity of the answer is the registry's first identity with that name, so
   * `contexts[0]` is the earliest-created matching container.
   */
  lemma {:induction false} NamedFirst(identities: seq<Identity>, name: string, k: nat)
    requires k < |identities| && identities[k].name == name
    requires forall j :: 0 <= j < k ==> identities[j].name != name
    ensures Named(identities, name) != [] && Named(identities, name)[0] == identities[k]
    decreases k
  {
    if k > 0 {
      assert identities[0].name != name;
      assert identities[1..][k - 1] == identities[k];
      forall j | 0 <= j < k - 1 ensures identities[1..][j].name != name {
        assert identities[1..][j] == identities[j + 1];
      }
      NamedFirst(identities[1..], name, k - 1);
    }
  }

  /** The registry after setup and the cookie store id setup settled on. */
  datatype SetupResult = SetupResult(identities: seq<Identity>, cookieStoreId: string)

  /**
   * `setupContainer`: if the query by name finds containers, the first one's store id is
   * used and nothing is created; otherwise a container with the fixed name, colour and
   * icon is created and the browser assigns it `freshStoreId`.
   */
  function Setup(identities: seq<Identity>, freshStoreId: string): (r: SetupResult)
  {
    var found := Named(identities, CONTAINER_NAME);
    if |found| > 0 then SetupResult(identities, found[0].cookieStoreId)
    else SetupResult(identities + [Identity(CONTAINER_NAME, CONTAINER_COLOR, CONTAINER_ICON, freshStoreId)],
                     freshStoreId)
  }

  /**
   * After setup the registry holds a container named "SSO Login", the chosen store id is
   * that of the first such container, and at most the one new container was added.
   */
  lemma SetupSelectsFirstNamed(identities: seq<Identity>, freshStoreId: string)
    ensures var r := Setup(identities, freshStoreId);
      && |Named(r.identities, CONTAINER_NAME)| > 0
      && Named(r.identities, CONTAINER_NAME)[0].cookieStoreId == r.cookieStoreId
      && (|Named(identities, CONTAINER_NAME)| > 0 ==> r.identities == identities)
      && (|Named(identities, CONTAINER_NAME)| == 0 ==>
            r.identities == identities + [Identity(CONTAINER_NAME, CONTAINER_COLOR, CONTAINER_ICON, freshStoreId)])
  {
    if |Named(identities, CONTAINER_NAME)| == 0 {
      NamedAppend(identities, Identity(CONTAINER_NAME, CONTAINER_COLOR, CONTAINER_ICON, freshStoreId), CONTAINER_NAME);
    }
  }

  /**
   * Setup is idempotent across restarts: running it again on the registry it produced
   * creates nothing and settles on the same store id, whatever id a creation would get.
   */
  lemma SetupIdempotent(identities: seq<Identity>, freshStoreId: string, laterFreshStoreId: string)
    ensures Setup(Setup(identities, freshStoreId).identities, laterFreshStoreId) == Setup(identities, freshStoreId)
  {
    SetupSelectsFirstNamed(identities, freshStoreId);
  }
}
