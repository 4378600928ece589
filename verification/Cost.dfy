/** The cost optimiser's scale-down button, followed from the proposal through the printed id,
    either chat platform's decoder and the 32-bit parse to the write in the store. */
module Cost {
  import opened Wrappers
  import opened Text
  import opened Actions
  import Scaling

  /** The guards of checkCostOptimization once the model has answered. */
  function Propose(namespace: string, deployment: string, replicas: int32, optimize: bool, recommended: int32)
    : Option<Action>
  {
    if replicas <= 1 || !optimize || recommended >= replicas then None
    else Some(Action.Scale(namespace, deployment, Decimal(recommended)))
  }

  /** Carried end to end: a proposal names a count strictly below the current one; both decoders
      read its button as that scaling of that deployment; and when the approved operation returns
      nil, the one write it made sets exactly the recommended count and nothing else. */
  lemma EndToEnd(namespace: string, deployment: string, replicas: int32, optimize: bool, recommended: int32,
                 init: map<Scaling.Key, Scaling.Object>, w: Scaling.World, attempts: seq<Scaling.Attempt>)
    requires '|' !in namespace && '|' !in deployment
    requires Propose(namespace, deployment, replicas, optimize, recommended).Some?
    requires Scaling.Explained(init, w) && |attempts| == Scaling.ATTEMPTS
    ensures recommended < replicas
    ensures var id := ActionId(Propose(namespace, deployment, replicas, optimize, recommended).value);
            && TelegramDecode(id).Some? && TelegramDecode(id).value.Scale? && SlackDecode(id) == TelegramDecode(id)
            && var a := TelegramDecode(id).value;
               var (w', err) := Scaling.Scale(w, Scaling.Key(a.namespace, a.deployment), a.replicas, attempts);
               && err != Some(Scaling.BadNumber)
               && (err.None? ==>
                     Scaling.CommittedOnce(init, w, w', Scaling.Key(namespace, deployment), recommended))
  {
    var a := Propose(namespace, deployment, replicas, optimize, recommended).value;
    OfferBarFree(namespace, deployment, recommended);
    NoConfusion(a);
    ParsePrinted(recommended, HALF32);
    Scaling.NoLostUpdate(init, w, Scaling.Key(namespace, deployment), a.replicas, attempts);
  }

  /** An attempt in which nobody else writes and the API answers every call. */
  predicate Undisturbed(a: Scaling.Attempt)
  {
    a == Scaling.Attempt([], None, [], None)
  }

  /** The guards bound a recommendation from above only. */
  lemma OfferedExactly(namespace: string, deployment: string, replicas: int32, optimize: bool, recommended: int32)
    ensures Propose(namespace, deployment, replicas, optimize, recommended).Some?
            <==> optimize && replicas > 1 && recommended < replicas
  {
  }

  /** So every recommendation of nought or fewer replicas is offered: its button decodes to that
      scaling on both platforms, its number parses, a nil return committed that very count, and nil
      is what an undisturbed first attempt returns. */
  lemma NoLowerGuard(namespace: string, deployment: string, replicas: int32, recommended: int32,
                     init: map<Scaling.Key, Scaling.Object>, w: Scaling.World, attempts: seq<Scaling.Attempt>)
    requires replicas > 1 && recommended <= 0
    requires '|' !in namespace && '|' !in deployment
    requires Scaling.Explained(init, w) && |attempts| == Scaling.ATTEMPTS
    ensures var offer := Propose(namespace, deployment, replicas, true, recommended);
            var key := Scaling.Key(namespace, deployment);
            && offer.Some?
            && TelegramDecode(ActionId(offer.value)) == SlackDecode(ActionId(offer.value)) == offer
            && offer.value.Scale? && ParseInt(offer.value.replicas, HALF32) == Parsed(recommended, NoError)
            && var (w', err) := Scaling.Scale(w, key, offer.value.replicas, attempts);
               && (err.None? ==> Scaling.CommittedOnce(init, w, w', key, recommended))
               && (key in w.objects && Undisturbed(attempts[0]) ==>
                     err.None? && key in w'.objects && w'.objects[key].replicas == recommended)
  {
    OfferedExactly(namespace, deployment, replicas, true, recommended);
    EndToEnd(namespace, deployment, replicas, true, recommended, init, w, attempts);
    ParsePrinted(recommended, HALF32);
    OfferBarFree(namespace, deployment, recommended);
    NoConfusion(Action.Scale(namespace, deployment, Decimal(recommended)));
  }

  lemma OfferBarFree(namespace: string, deployment: string, recommended: int)
    requires '|' !in namespace && '|' !in deployment
    ensures BarFree(Action.Scale(namespace, deployment, Decimal(recommended)))
  {
    forall c | c in Decimal(recommended) ensures c != '|' {
      assert IsDigit(c) || c == '-';
    }
  }
}
