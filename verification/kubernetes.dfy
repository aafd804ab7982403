/** Kubernetes object shapes shared by the custom-resource tables. */
module Kubernetes {

  /** The `metadata` fields the tables read from any Kubernetes object. */
  datatype ObjectMeta = ObjectMeta(name: string, namespace: string)
}
