/**
 * The user and permission records the modelled handlers read and write.
 * They mirror Woodpecker's `model.User`, `model.Perm` and `model.OrgPerm`;
 * only the fields the modelled code touches are kept.
 */
module UserModel {

  /** A Woodpecker account. `hash` is the per-user secret that signs the
      user's session and API tokens. */
  datatype User = User(
    id: int,
    login: string,
    email: string,
    avatar: string,
    admin: bool,
    hash: string,
    forgeId: int,
    forgeRemoteId: string)

  /** The caller's permission on the addressed repository. */
  datatype Perm = Perm(pull: bool, push: bool, admin: bool)

  /** The caller's membership in an organization, as the forge reports it. */
  datatype OrgPerm = OrgPerm(member: bool, admin: bool)

  /** The organization addressed by the request. */
  datatype Org = Org(name: string)
}
