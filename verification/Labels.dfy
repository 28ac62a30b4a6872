/** The labels of every resource made for a container. */
module Labels {
  import opened Sanitizer
  import opened Text

  type LabelMap = map<string, string>

  const MANAGED := "kubedock"
  const INSTANCE := "kubedock.id"
  const CONTAINER := "kubedock.containerid"

  const OWN_KEYS := {MANAGED, INSTANCE, CONTAINER}

  /** The three labels the delete selectors go by. */
  predicate Tagged(labels: LabelMap, instance: string, shortID: string) {
    && OWN_KEYS <= labels.Keys
    && labels[MANAGED] == "true"
    && labels[INSTANCE] == instance
    && labels[CONTAINER] == shortID
  }

  /** A user label that survives sanitizing; the others are skipped. */
  predicate Usable(key: string, value: string) {
    && (Sanitize(Key, key) == "" ==> key == "")
    && (Sanitize(Value, value) == "" ==> value == "")
  }

  /** The user label `k` ends up as `key: value`. */
  predicate Becomes(user: LabelMap, k: string, key: string, value: string) {
    && k in user && Usable(k, user[k])
    && key == Sanitize(Key, k) && value == Sanitize(Value, user[k])
  }

  /**
   Template labels, then default labels, then sanitized user labels (in the
   arbitrary order in which a map is walked), then the system labels and the
   container's own id: later ones win.
   */
  method GetLabels(template: LabelMap, defaults: LabelMap, user: LabelMap, instance: string, shortID: string)
    returns (labels: LabelMap)
    ensures Tagged(labels, instance, shortID)
    ensures template.Keys + defaults.Keys <= labels.Keys
    ensures forall k :: k in user && Usable(k, user[k]) ==> Sanitize(Key, k) in labels
    ensures forall key :: key in labels && key !in OWN_KEYS ==>
              || (exists k :: Becomes(user, k, key, labels[key]))
              || (key in template + defaults && labels[key] == (template + defaults)[key]
                  && forall k :: k in user && Usable(k, user[k]) ==> Sanitize(Key, k) != key)
  {
    labels := template + defaults;
    var todo := user.Keys;
    while todo != {}
      invariant todo <= user.Keys
      invariant template.Keys + defaults.Keys <= labels.Keys
      invariant forall k :: k in user && k !in todo && Usable(k, user[k]) ==> Sanitize(Key, k) in labels
      invariant forall key :: key in labels ==>
                  || (exists k :: Becomes(user, k, key, labels[key]))
                  || (key in template + defaults && labels[key] == (template + defaults)[key]
                      && forall k :: k in user && k !in todo && Usable(k, user[k]) ==> Sanitize(Key, k) != key)
    {
      var k :| k in todo;
      todo := todo - {k};
      var kk := ToKubernetes(Key, k);
      var kv := ToKubernetes(Value, user[k]);
      if kk == "" && k != "" {
        continue;
      }
      if kv == "" && user[k] != "" {
        continue;
      }
      assert Becomes(user, k, kk, kv);
      labels := labels[kk := kv];
    }
    labels := labels[MANAGED := "true"][INSTANCE := instance];
    labels := labels[CONTAINER := shortID];
  }
}
