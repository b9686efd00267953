/** Namespaced names and their "namespace/name" rendering as work-queue keys. */
module Names {

  datatype Key = Key(namespace: string, name: string)

  function Render(k: Key): string { k.namespace + "/" + k.name }
}
