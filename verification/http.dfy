/** HTTP vocabulary shared by the client and the periphery descriptors. */
module Http {
  datatype Verb = Get | Post
}
